/**
 Slots and bookings. Every service method is one transaction over both tables: it reads, writes through
 the repositories, and commits; an exception rolls everything back. Transactions run one at a time here;
 DoubleBooking interleaves them.
 */
module Bookings {
  import opened Prelude

  datatype SlotStatus = Available | Booked | SlotCancelled
  datatype Slot = Slot(propertyId: Uuid, agentUserId: Uuid, organizationId: Uuid,
                       startTime: Instant, endTime: Instant, status: SlotStatus)

  datatype BookingStatus = Confirmed | CancelledByApplicant | CancelledByAgent
  datatype Booking = Booking(slotId: Uuid, applicantId: Uuid, propertyId: Uuid, organizationId: Uuid,
                             status: BookingStatus, notes: string)

  datatype Error =
    | SlotNotFound | SlotNotAvailable | BookingNotFound | BookingNotCancellable | Forbidden
    | InvalidTimeRange                    // ValueError of CreateSlotParams
    | IntegrityError                      // a UNIQUE, PRIMARY KEY or FOREIGN KEY constraint

  type Slots = map<Uuid, Slot>
  type BookingTable = map<Uuid, Booking>

  datatype Db = Db(slots: Slots, bookings: BookingTable)

  /** A request, with the identifiers the service draws from `uuid4`. */
  datatype Request =
    | CreateSlot(id: Uuid, propertyId: Uuid, agentUserId: Uuid, organizationId: Uuid,
                 startTime: Instant, endTime: Instant)
    | CreateBooking(id: Uuid, slotId: Uuid, applicantId: Uuid, notes: string)
    | CancelByApplicant(bookingId: Uuid, applicantId: Uuid)
    | CancelByAgent(bookingId: Uuid, organizationId: Uuid)
    | CancelSlot(slotId: Uuid, agentUserId: Uuid)

  function BookingsOf(bookings: BookingTable, slotId: Uuid): set<Uuid> {
    set b | b in bookings && bookings[b].slotId == slotId
  }

  function WithStatus(slots: Slots, id: Uuid, status: SlotStatus): Slots {
    if id in slots then slots[id := slots[id].(status := status)] else slots
  }

  function CancelConfirmedOf(bookings: BookingTable, slotId: Uuid): BookingTable {
    map b | b in bookings ::
      if bookings[b].slotId == slotId && bookings[b].status == Confirmed
      then bookings[b].(status := CancelledByAgent) else bookings[b]
  }

  /** What each transaction does to the committed database. `applicants` backs the foreign key. */
  function Apply(db: Db, applicants: set<Uuid>, r: Request): Result<Db, Error> {
    match r
    case CreateSlot(id, p, agent, org, from, to) =>
      if to <= from then Err(InvalidTimeRange)
      else if id in db.slots then Err(IntegrityError)
      else Ok(db.(slots := db.slots[id := Slot(p, agent, org, from, to, Available)]))
    case CreateBooking(id, slotId, applicantId, notes) =>
      if slotId !in db.slots then Err(SlotNotFound)
      else if db.slots[slotId].status != Available then Err(SlotNotAvailable)
      else if id in db.bookings || applicantId !in applicants || BookingsOf(db.bookings, slotId) != {}
      then Err(IntegrityError)
      else
        var slot := db.slots[slotId];
        Ok(Db(WithStatus(db.slots, slotId, Booked),
              db.bookings[id := Booking(slotId, applicantId, slot.propertyId, slot.organizationId, Confirmed, notes)]))
    case CancelByApplicant(bookingId, applicantId) =>
      if bookingId !in db.bookings then Err(BookingNotFound)
      else if db.bookings[bookingId].applicantId != applicantId then Err(Forbidden)
      else CancelBooking(db, bookingId, CancelledByApplicant)
    case CancelByAgent(bookingId, organizationId) =>
      if bookingId !in db.bookings then Err(BookingNotFound)
      else if db.bookings[bookingId].organizationId != organizationId then Err(Forbidden)
      else CancelBooking(db, bookingId, CancelledByAgent)
    case CancelSlot(slotId, agent) =>
      if slotId !in db.slots then Err(SlotNotFound)
      else if db.slots[slotId].agentUserId != agent then Err(Forbidden)
      else Ok(Db(WithStatus(db.slots, slotId, SlotCancelled),
                 if db.slots[slotId].status == Booked then CancelConfirmedOf(db.bookings, slotId) else db.bookings))
  }

  function CancelBooking(db: Db, bookingId: Uuid, status: BookingStatus): Result<Db, Error>
    requires bookingId in db.bookings
  {
    var booking := db.bookings[bookingId];
    if booking.status != Confirmed then Err(BookingNotCancellable)
    else Ok(Db(WithStatus(db.slots, booking.slotId, Available),
               db.bookings[bookingId := booking.(status := status)]))
  }

  /** The committed database after a request: unchanged when the transaction raised. */
  function Step(db: Db, applicants: set<Uuid>, r: Request): Db {
    match Apply(db, applicants, r)
    case Ok(db') => db'
    case Err(_) => db
  }

  function Run(db: Db, applicants: set<Uuid>, rs: seq<Request>): Db
    decreases |rs|
  {
    if rs == [] then db else Run(Step(db, applicants, rs[0]), applicants, rs[1..])
  }

  const EMPTY := Db(map[], map[])

  // ---------- The coupled invariant ----------

  ghost predicate HasConfirmed(db: Db, slotId: Uuid) {
    exists b :: b in db.bookings && db.bookings[b].slotId == slotId && db.bookings[b].status == Confirmed
  }

  /** `uq_booking_bookings_slot_id`. */
  ghost predicate UniqueSlotId(bookings: BookingTable) {
    forall a, b :: a in bookings && b in bookings && bookings[a].slotId == bookings[b].slotId ==> a == b
  }

  ghost predicate Inv(db: Db) {
    && (forall s :: s in db.slots ==> (db.slots[s].status == Booked <==> HasConfirmed(db, s)))
    && UniqueSlotId(db.bookings)
    && (forall b :: b in db.bookings ==>
          db.bookings[b].slotId in db.slots
          && db.bookings[b].propertyId == db.slots[db.bookings[b].slotId].propertyId
          && db.bookings[b].organizationId == db.slots[db.bookings[b].slotId].organizationId)
    && (forall s :: s in db.slots ==> db.slots[s].startTime < db.slots[s].endTime)
  }

  // ---------- The services ----------

  /** The booking unit of work and the two services over it; `slots` and `bookings` are what is committed. */
  class BookingSystem {
    var slots: Slots
    var bookings: BookingTable
    const applicants: set<Uuid>

    function View(): Db
      reads this
    {
      Db(slots, bookings)
    }

    /** What the services keep: booked iff confirmed, one booking per slot, agreement. */
    ghost predicate Valid()
      reads this
    {
      Inv(View())
    }

    constructor (applicants: set<Uuid>)
      ensures Valid() && View() == EMPTY && this.applicants == applicants
    {
      slots := map[];
      bookings := map[];
      this.applicants := applicants;
    }

    /** Run a transaction's outcome through: its result is Ok exactly when it committed. */
    ghost predicate Did(was: Db, r: Request, error: Option<Error>)
      reads this
    {
      match Apply(was, applicants, r)
      case Ok(db) => View() == db && error.None?
      case Err(e) => View() == was && error == Some(e)
    }

    method CreateSlot(id: Uuid, propertyId: Uuid, agent: Uuid, org: Uuid, startTime: Instant, endTime: Instant)
      returns (error: Option<Error>)
      requires Valid()
      modifies this
      ensures Valid()
      ensures Did(old(View()), Request.CreateSlot(id, propertyId, agent, org, startTime, endTime), error)
    {
      InvKept(View(), applicants, Request.CreateSlot(id, propertyId, agent, org, startTime, endTime));
      if endTime <= startTime {
        return Some(InvalidTimeRange);
      }
      var session := slots;
      if id in session {
        return Some(IntegrityError);
      }
      session := session[id := Slot(propertyId, agent, org, startTime, endTime, Available)];
      slots := session;
      return None;
    }

    /** UPDATE booking_slots SET status = 'booked' WHERE id = ... AND status = 'available'; its rowcount > 0. */
    method MarkBooked(session: Slots, slotId: Uuid) returns (after: Slots, booked: bool)
      ensures booked <==> slotId in session && session[slotId].status == Available
      ensures after == if booked then WithStatus(session, slotId, Booked) else session
    {
      if slotId in session && session[slotId].status == Available {
        return session[slotId := session[slotId].(status := Booked)], true;
      }
      return session, false;
    }

    method Create(id: Uuid, slotId: Uuid, applicantId: Uuid, notes: string) returns (error: Option<Error>)
      requires Valid()
      modifies this
      ensures Valid()
      ensures Did(old(View()), CreateBooking(id, slotId, applicantId, notes), error)
    {
      InvKept(View(), applicants, CreateBooking(id, slotId, applicantId, notes));
      if slotId !in slots {
        return Some(SlotNotFound);
      }
      var slot := slots[slotId];
      if slot.status != Available {
        return Some(SlotNotAvailable);
      }
      var sessionSlots, booked := MarkBooked(slots, slotId);
      if !booked {
        return Some(SlotNotAvailable);
      }
      if id in bookings || applicantId !in applicants || BookingsOf(bookings, slotId) != {} {
        return Some(IntegrityError);
      }
      var sessionBookings := bookings[id :=
        Booking(slotId, applicantId, slot.propertyId, slot.organizationId, Confirmed, notes)];
      slots, bookings := sessionSlots, sessionBookings;
      return None;
    }

    method CancelByApplicant(bookingId: Uuid, applicantId: Uuid) returns (error: Option<Error>)
      requires Valid()
      modifies this
      ensures Valid()
      ensures Did(old(View()), Request.CancelByApplicant(bookingId, applicantId), error)
    {
      InvKept(View(), applicants, Request.CancelByApplicant(bookingId, applicantId));
      if bookingId !in bookings {
        return Some(BookingNotFound);
      }
      var booking := bookings[bookingId];
      if booking.applicantId != applicantId {
        return Some(Forbidden);
      }
      if booking.status != Confirmed {
        return Some(BookingNotCancellable);
      }
      var sessionBookings := bookings[bookingId := booking.(status := CancelledByApplicant)];
      var sessionSlots := MarkAvailable(slots, booking.slotId);
      slots, bookings := sessionSlots, sessionBookings;
      return None;
    }

    method CancelByAgent(bookingId: Uuid, organizationId: Uuid) returns (error: Option<Error>)
      requires Valid()
      modifies this
      ensures Valid()
      ensures Did(old(View()), Request.CancelByAgent(bookingId, organizationId), error)
    {
      InvKept(View(), applicants, Request.CancelByAgent(bookingId, organizationId));
      if bookingId !in bookings {
        return Some(BookingNotFound);
      }
      var booking := bookings[bookingId];
      if booking.organizationId != organizationId {
        return Some(Forbidden);
      }
      if booking.status != Confirmed {
        return Some(BookingNotCancellable);
      }
      var sessionBookings := bookings[bookingId := booking.(status := CancelledByAgent)];
      var sessionSlots := MarkAvailable(slots, booking.slotId);
      slots, bookings := sessionSlots, sessionBookings;
      return None;
    }

    /** An unconditional UPDATE: it does not look at the status it overwrites. */
    method MarkAvailable(session: Slots, slotId: Uuid) returns (after: Slots)
      ensures after == WithStatus(session, slotId, Available)
    {
      after := if slotId in session then session[slotId := session[slotId].(status := Available)] else session;
    }

    /** `SlotService.cancel`, with its cascade to the slot's booking. */
    method CancelSlot(slotId: Uuid, agent: Uuid) returns (error: Option<Error>)
      requires Valid()
      modifies this
      ensures Valid()
      ensures Did(old(View()), Request.CancelSlot(slotId, agent), error)
    {
      InvKept(View(), applicants, Request.CancelSlot(slotId, agent));
      if slotId !in slots {
        return Some(SlotNotFound);
      }
      var slot := slots[slotId];
      if slot.agentUserId != agent {
        return Some(Forbidden);
      }
      var sessionBookings := bookings;
      if slot.status == Booked {
        // `scalar_one_or_none`: the UNIQUE constraint leaves at most one.
        var found := BookingsOf(bookings, slotId);
        if found != {} {
          var b :| b in found;
          if bookings[b].status == Confirmed {
            sessionBookings := bookings[b := bookings[b].(status := CancelledByAgent)];
          }
        }
        assert forall b :: b in bookings && bookings[b].slotId == slotId ==> b in found;
        assert sessionBookings == CancelConfirmedOf(bookings, slotId);
      }
      slots, bookings := slots[slotId := slot.(status := SlotCancelled)], sessionBookings;
      return None;
    }
  }

  // ---------- Proofs over all serial runs ----------

  lemma CreateKeepsInv(db: Db, applicants: set<Uuid>, r: Request)
    requires Inv(db) && r.CreateBooking?
    ensures Inv(Step(db, applicants, r))
  {
    var db' := Step(db, applicants, r);
    if db' != db {
      assert forall b :: b in db.bookings ==> b !in BookingsOf(db.bookings, r.slotId);
      forall s | s in db'.slots ensures db'.slots[s].status == Booked <==> HasConfirmed(db', s) {
        if s == r.slotId {
          assert db'.bookings[r.id].slotId == s;
        } else if HasConfirmed(db, s) {
          var b :| b in db.bookings && db.bookings[b].slotId == s && db.bookings[b].status == Confirmed;
          assert db'.bookings[b] == db.bookings[b];
        }
      }
    }
  }

  lemma CancelBookingKeepsInv(db: Db, bookingId: Uuid, status: BookingStatus)
    requires Inv(db) && bookingId in db.bookings && status != Confirmed
    ensures CancelBooking(db, bookingId, status).Ok? ==> Inv(CancelBooking(db, bookingId, status).value)
  {
    if CancelBooking(db, bookingId, status).Ok? {
      var db' := CancelBooking(db, bookingId, status).value;
      var slotId := db.bookings[bookingId].slotId;
      forall s | s in db'.slots ensures db'.slots[s].status == Booked <==> HasConfirmed(db', s) {
        if s != slotId && HasConfirmed(db, s) {
          var b :| b in db.bookings && db.bookings[b].slotId == s && db.bookings[b].status == Confirmed;
          assert db'.bookings[b] == db.bookings[b];
        }
      }
    }
  }

  lemma CancelSlotKeepsInv(db: Db, applicants: set<Uuid>, r: Request)
    requires Inv(db) && r.CancelSlot?
    ensures Inv(Step(db, applicants, r))
  {
    var db' := Step(db, applicants, r);
    forall s | s in db'.slots ensures db'.slots[s].status == Booked <==> HasConfirmed(db', s) {
      if s != r.slotId && HasConfirmed(db, s) {
        var b :| b in db.bookings && db.bookings[b].slotId == s && db.bookings[b].status == Confirmed;
        assert db'.bookings[b] == db.bookings[b];
      }
    }
  }

  lemma CreateSlotKeepsInv(db: Db, applicants: set<Uuid>, r: Request)
    requires Inv(db) && r.CreateSlot?
    ensures Inv(Step(db, applicants, r))
  {
    var db' := Step(db, applicants, r);
    assert forall s :: HasConfirmed(db', s) <==> HasConfirmed(db, s);
  }

  lemma InvKept(db: Db, applicants: set<Uuid>, r: Request)
    requires Inv(db)
    ensures Inv(Step(db, applicants, r))
  {
    match r
    case CreateSlot(_, _, _, _, _, _) => CreateSlotKeepsInv(db, applicants, r);
    case CreateBooking(_, _, _, _) => CreateKeepsInv(db, applicants, r);
    case CancelByApplicant(b, _) =>
      if b in db.bookings { CancelBookingKeepsInv(db, b, CancelledByApplicant); }
    case CancelByAgent(b, _) =>
      if b in db.bookings { CancelBookingKeepsInv(db, b, CancelledByAgent); }
    case CancelSlot(_, _) => CancelSlotKeepsInv(db, applicants, r);
  }

  lemma {:induction false} InvAlways(db: Db, applicants: set<Uuid>, rs: seq<Request>)
    requires Inv(db)
    ensures Inv(Run(db, applicants, rs))
    decreases |rs|
  {
    if rs != [] {
      InvKept(db, applicants, rs[0]);
      InvAlways(Step(db, applicants, rs[0]), applicants, rs[1..]);
    }
  }

  /** Serial safety from the empty database: booked iff confirmed, one booking per slot, agreement. */
  lemma SerialInvariant(applicants: set<Uuid>, rs: seq<Request>)
    ensures Inv(Run(EMPTY, applicants, rs))
  {
    InvAlways(EMPTY, applicants, rs);
  }

  ghost predicate CancelledStays(db: Db, db': Db) {
    && db.slots.Keys <= db'.slots.Keys
    && (forall s :: s in db.slots && db.slots[s].status == SlotCancelled ==> db'.slots[s].status == SlotCancelled)
    && db.bookings.Keys <= db'.bookings.Keys
    && (forall b :: b in db.bookings ==> db'.bookings[b].slotId == db.bookings[b].slotId)
    && (forall b :: b in db.bookings && db.bookings[b].status != Confirmed ==> db'.bookings[b] == db.bookings[b])
  }

  lemma CancelledStaysStep(db: Db, applicants: set<Uuid>, r: Request)
    requires Inv(db)
    ensures CancelledStays(db, Step(db, applicants, r))
  {
    hide UniqueSlotId;
    if (r.CancelByApplicant? || r.CancelByAgent?) && r.bookingId in db.bookings
       && db.bookings[r.bookingId].status == Confirmed {
      // The unconditional `mark_available` is safe only because the slot of a confirmed booking is BOOKED.
      assert HasConfirmed(db, db.bookings[r.bookingId].slotId);
    }
  }

  /** A cancelled slot is never left, a cancelled booking never changes, and nothing is ever removed. */
  lemma {:induction false} CancellationIsFinal(db: Db, applicants: set<Uuid>, rs: seq<Request>)
    requires Inv(db)
    ensures CancelledStays(db, Run(db, applicants, rs))
    decreases |rs|
  {
    if rs != [] {
      var db' := Step(db, applicants, rs[0]);
      CancelledStaysStep(db, applicants, rs[0]);
      InvKept(db, applicants, rs[0]);
      CancellationIsFinal(db', applicants, rs[1..]);
      var end := Run(db', applicants, rs[1..]);
      forall b | b in db.bookings
        ensures end.bookings[b].slotId == db.bookings[b].slotId
        ensures db.bookings[b].status != Confirmed ==> end.bookings[b] == db.bookings[b]
      {
        assert b in db'.bookings;
      }
    }
  }

  /** When a booking succeeds: a fresh id, a known applicant, and an available slot nobody ever booked. */
  lemma CreateSucceedsIff(db: Db, applicants: set<Uuid>, id: Uuid, slotId: Uuid, applicantId: Uuid, notes: string)
    ensures Apply(db, applicants, CreateBooking(id, slotId, applicantId, notes)).Ok? <==>
      && slotId in db.slots && db.slots[slotId].status == Available
      && id !in db.bookings && applicantId in applicants
      && forall b :: b in db.bookings ==> db.bookings[b].slotId != slotId
  {
    assert BookingsOf(db.bookings, slotId) == {} <==>
      forall b :: b in db.bookings ==> b !in BookingsOf(db.bookings, slotId);
  }

  /**
   A booking that was cancelled frees its slot but keeps its row, and `slot_id` is unique: the slot shows
   as available, yet no later request of any kind books it again.
   */
  lemma {:induction false} SlotIsBookableOnce(db: Db, applicants: set<Uuid>, rs: seq<Request>, b: Uuid, r: Request)
    requires Inv(db) && b in db.bookings
    requires r.CreateBooking? && r.slotId == db.bookings[b].slotId
    ensures Apply(Run(db, applicants, rs), applicants, r).Err?
  {
    CancellationIsFinal(db, applicants, rs);
    var end := Run(db, applicants, rs);
    assert end.bookings[b].slotId == r.slotId;
    CreateSucceedsIff(end, applicants, r.id, r.slotId, r.applicantId, r.notes);
  }
}
