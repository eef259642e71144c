/**
 Whose request may change what. For one request and for whole runs from the empty database: which request made
 a slot or a booking and what it put there, and which one cancelled it.
 */
module BookingOwnership {
  import opened Prelude
  import opened Bookings

  /** The request comes from somebody who may cancel this booking: its applicant, its organization, its slot's agent. */
  predicate MayCancel(db: Db, r: Request, b: Uuid, becomes: BookingStatus) {
    && b in db.bookings
    && match r
       case CancelByApplicant(id, applicant) =>
         id == b && applicant == db.bookings[b].applicantId && becomes == CancelledByApplicant
       case CancelByAgent(id, organization) =>
         id == b && organization == db.bookings[b].organizationId && becomes == CancelledByAgent
       case CancelSlot(slot, agent) =>
         && slot == db.bookings[b].slotId && slot in db.slots && agent == db.slots[slot].agentUserId
         && becomes == CancelledByAgent
       case _ => false
  }

  /** The request makes this booking, of a slot that is free until then. */
  predicate Books(db: Db, r: Request, b: Uuid, booking: Booking) {
    && r == CreateBooking(b, booking.slotId, booking.applicantId, booking.notes)
    && booking.slotId in db.slots && db.slots[booking.slotId].status == Available
    && booking.propertyId == db.slots[booking.slotId].propertyId
    && booking.organizationId == db.slots[booking.slotId].organizationId
  }

  /** The request is an owner's cancellation of a confirmed booking of this slot. */
  ghost predicate Frees(db: Db, r: Request, s: Uuid) {
    exists b, becomes ::
      && MayCancel(db, r, b, becomes) && !r.CancelSlot?
      && db.bookings[b].slotId == s && db.bookings[b].status == Confirmed
  }

  predicate Opens(r: Request, s: Uuid, slot: Slot) {
    && r == CreateSlot(s, slot.propertyId, slot.agentUserId, slot.organizationId, slot.startTime, slot.endTime)
    && slot.status == Available && slot.startTime < slot.endTime
  }

  /**
   What a request does to a booking: it is cancelled exactly by those who may, in their own name, and nothing
   else about it ever changes; a booking appears only confirmed, and with what its request says.
   */
  lemma BookingChange(db: Db, db': Db, applicants: set<Uuid>, r: Request, b: Uuid, cancelled: BookingStatus)
    requires Inv(db) && db' == Step(db, applicants, r) && cancelled != Confirmed
    ensures b in db.bookings ==> b in db'.bookings
    ensures b in db.bookings ==> db'.bookings[b] == db.bookings[b].(status := db'.bookings[b].status)
    ensures b in db.bookings ==>
      (db'.bookings[b].status == cancelled <==>
        db.bookings[b].status == cancelled || (db.bookings[b].status == Confirmed && MayCancel(db, r, b, cancelled)))
    ensures b !in db.bookings && b in db'.bookings ==>
      db'.bookings[b].status == Confirmed && Books(db, r, b, db'.bookings[b])
  {
    if b in db.bookings && db.bookings[b].status == Confirmed {
      assert HasConfirmed(db, db.bookings[b].slotId);
    }
    hide UniqueSlotId, HasConfirmed;
  }

  /** What a request does to a slot: only its own agent cancels it, and only an owner of its booking frees it. */
  lemma SlotChange(db: Db, db': Db, applicants: set<Uuid>, r: Request, s: Uuid)
    requires Inv(db) && db' == Step(db, applicants, r)
    ensures s in db.slots ==> s in db'.slots
    ensures s in db.slots ==> db'.slots[s] == db.slots[s].(status := db'.slots[s].status)
    ensures s in db.slots ==>
      (db'.slots[s].status == SlotCancelled <==>
        db.slots[s].status == SlotCancelled || r == CancelSlot(s, db.slots[s].agentUserId))
    ensures s in db.slots && db.slots[s].status == Booked ==> (db'.slots[s].status == Available <==> Frees(db, r, s))
    ensures s in db.slots && db.slots[s].status != Booked ==>
      (db'.slots[s].status == Booked <==>
        exists b :: b in db'.bookings && b !in db.bookings && db'.bookings[b].slotId == s)
    ensures s !in db.slots && s in db'.slots ==> Opens(r, s, db'.slots[s])
  {
    hide UniqueSlotId;
    match r
    case CreateSlot(_, _, _, _, _, _) =>
    case CreateBooking(id, slotId, _, _) =>
      if id in db'.bookings && id !in db.bookings { assert db'.bookings[id].slotId == slotId; }
    case CancelByApplicant(b, _) => OwnersFree(db, db', applicants, r, s);
    case CancelByAgent(b, _) => OwnersFree(db, db', applicants, r, s);
    case CancelSlot(_, _) =>
  }

  lemma OwnersFree(db: Db, db': Db, applicants: set<Uuid>, r: Request, s: Uuid)
    requires Inv(db) && db' == Step(db, applicants, r) && (r.CancelByApplicant? || r.CancelByAgent?)
    ensures Frees(db, r, s) ==> s in db.slots
    ensures s in db.slots ==> db'.slots[s] == if Frees(db, r, s) then db.slots[s].(status := Available) else db.slots[s]
    ensures Frees(db, r, s) ==> db.slots[s].status == Booked
  {
    hide UniqueSlotId;
    var becomes := if r.CancelByApplicant? then CancelledByApplicant else CancelledByAgent;
    if r.bookingId in db.bookings && db.bookings[r.bookingId].status == Confirmed {
      assert HasConfirmed(db, db.bookings[r.bookingId].slotId);
      if MayCancel(db, r, r.bookingId, becomes) {
        assert Frees(db, r, db.bookings[r.bookingId].slotId);
      }
    }
  }

  /** Which refusal a caller gets: ownership is looked at before the booking's status, and after existence. */
  lemma RefusedIff(db: Db, applicants: set<Uuid>, r: Request)
    ensures var answer := Apply(db, applicants, r);
      && (answer == Err(BookingNotFound) <==>
            (r.CancelByApplicant? || r.CancelByAgent?) && r.bookingId !in db.bookings)
      && (answer == Err(SlotNotFound) <==> (r.CreateBooking? || r.CancelSlot?) && r.slotId !in db.slots)
      && (answer == Err(Forbidden) <==>
            || (r.CancelByApplicant? && r.bookingId in db.bookings
                && db.bookings[r.bookingId].applicantId != r.applicantId)
            || (r.CancelByAgent? && r.bookingId in db.bookings
                && db.bookings[r.bookingId].organizationId != r.organizationId)
            || (r.CancelSlot? && r.slotId in db.slots && db.slots[r.slotId].agentUserId != r.agentUserId))
      && (answer == Err(BookingNotCancellable) <==>
            exists becomes :: (r.CancelByApplicant? || r.CancelByAgent?)
              && MayCancel(db, r, r.bookingId, becomes) && db.bookings[r.bookingId].status != Confirmed)
      && (answer == Err(SlotNotAvailable) <==>
            r.CreateBooking? && r.slotId in db.slots && db.slots[r.slotId].status != Available)
      && (answer == Err(InvalidTimeRange) <==> r.CreateSlot? && r.startTime >= r.endTime)
      && (answer == Err(IntegrityError) <==>
            || (r.CreateSlot? && r.startTime < r.endTime && r.id in db.slots)
            || (r.CreateBooking? && r.slotId in db.slots && db.slots[r.slotId].status == Available
                && (r.id in db.bookings || r.applicantId !in applicants
                    || exists b :: b in db.bookings && db.bookings[b].slotId == r.slotId)))
  {
    if r.CreateBooking? {
      assert forall b :: b in BookingsOf(db.bookings, r.slotId) <==>
        b in db.bookings && db.bookings[b].slotId == r.slotId;
    }
    if r.CancelByApplicant? && Apply(db, applicants, r) == Err(BookingNotCancellable) {
      assert MayCancel(db, r, r.bookingId, CancelledByApplicant);
    }
    if r.CancelByAgent? && Apply(db, applicants, r) == Err(BookingNotCancellable) {
      assert MayCancel(db, r, r.bookingId, CancelledByAgent);
    }
  }

  // ---------- Whole runs ----------

  /** The database the k-th request finds. */
  function Before(applicants: set<Uuid>, rs: seq<Request>, k: nat): Db
    requires k <= |rs|
  {
    Run(EMPTY, applicants, rs[..k])
  }

  lemma {:induction false} RunSnoc(db: Db, applicants: set<Uuid>, rs: seq<Request>, r: Request)
    ensures Run(db, applicants, rs + [r]) == Step(Run(db, applicants, rs), applicants, r)
    decreases |rs|
  {
    if rs == [] {
      assert Run(Step(db, applicants, r), applicants, []) == Step(db, applicants, r);
      assert ([r])[1..] == [];
    } else {
      assert (rs + [r])[1..] == rs[1..] + [r];
      RunSnoc(Step(db, applicants, rs[0]), applicants, rs[1..], r);
    }
  }

  lemma LastStep(applicants: set<Uuid>, rs: seq<Request>)
    requires rs != []
    ensures var init := rs[..|rs| - 1];
      && Run(EMPTY, applicants, rs) == Step(Run(EMPTY, applicants, init), applicants, rs[|rs| - 1])
      && Inv(Run(EMPTY, applicants, init)) && Before(applicants, rs, |init|) == Run(EMPTY, applicants, init)
      && forall k :: 0 <= k <= |init| ==> Before(applicants, rs, k) == Before(applicants, init, k)
  {
    var init := rs[..|rs| - 1];
    assert rs == init + [rs[|rs| - 1]];
    RunSnoc(EMPTY, applicants, init, rs[|rs| - 1]);
    SerialInvariant(applicants, init);
    forall k | 0 <= k <= |init| ensures rs[..k] == init[..k] {
    }
  }

  ghost predicate BooksAt(applicants: set<Uuid>, rs: seq<Request>, k: int, b: Uuid, booking: Booking) {
    0 <= k < |rs| && Books(Before(applicants, rs, k), rs[k], b, booking)
  }

  ghost predicate CancelsAt(applicants: set<Uuid>, rs: seq<Request>, k: int, b: Uuid, becomes: BookingStatus) {
    && 0 <= k < |rs| && MayCancel(Before(applicants, rs, k), rs[k], b, becomes)
    && Before(applicants, rs, k).bookings[b].status == Confirmed
  }

  /**
   The life of a booking in any run: a request of its own applicant made it, with that request's notes, on a
   slot that was free; and it is cancelled, in whoever's name, exactly when one who may cancelled it.
   */
  lemma {:induction false} BookingHistory(applicants: set<Uuid>, rs: seq<Request>, b: Uuid, cancelled: BookingStatus)
    requires b in Run(EMPTY, applicants, rs).bookings && cancelled != Confirmed
    ensures exists k :: BooksAt(applicants, rs, k, b, Run(EMPTY, applicants, rs).bookings[b])
    ensures Run(EMPTY, applicants, rs).bookings[b].status == cancelled <==>
      exists k :: CancelsAt(applicants, rs, k, b, cancelled)
    decreases |rs|
  {
    assert rs != [];
    var n := |rs| - 1;
    var init, r := rs[..n], rs[n];
    var was, now := Run(EMPTY, applicants, init), Run(EMPTY, applicants, rs);
    LastStep(applicants, rs);
    BookingChange(was, now, applicants, r, b, cancelled);
    CancelsSnoc(applicants, rs, b, cancelled);
    var booking := now.bookings[b];
    hide Step, Inv, Run, MayCancel;
    if b in was.bookings {
      BookingHistory(applicants, init, b, cancelled);
      var k :| BooksAt(applicants, init, k, b, was.bookings[b]);
      assert BooksAt(applicants, rs, k, b, booking);
    } else {
      assert BooksAt(applicants, rs, n, b, booking);
      NotBefore(applicants, init, b, cancelled);
      NeverThere(applicants, rs, n, b, cancelled);
    }
  }

  lemma NeverThere(applicants: set<Uuid>, rs: seq<Request>, k: nat, b: Uuid, becomes: BookingStatus)
    requires k <= |rs| && b !in Before(applicants, rs, k).bookings
    ensures !CancelsAt(applicants, rs, k, b, becomes)
  {
  }

  /** Nobody cancels a booking that is not there yet. */
  lemma NotBefore(applicants: set<Uuid>, rs: seq<Request>, b: Uuid, becomes: BookingStatus)
    requires b !in Run(EMPTY, applicants, rs).bookings
    ensures forall k :: !CancelsAt(applicants, rs, k, b, becomes)
  {
    forall k ensures !CancelsAt(applicants, rs, k, b, becomes) {
      if CancelsAt(applicants, rs, k, b, becomes) {
        StaysThere(applicants, rs, k);
      }
    }
  }

  lemma StaysThere(applicants: set<Uuid>, rs: seq<Request>, k: nat)
    requires k <= |rs|
    ensures Before(applicants, rs, k).bookings.Keys <= Run(EMPTY, applicants, rs).bookings.Keys
    ensures Before(applicants, rs, k).slots.Keys <= Run(EMPTY, applicants, rs).slots.Keys
  {
    SerialInvariant(applicants, rs[..k]);
    RunSplits(EMPTY, applicants, rs, k);
    CancellationIsFinal(Before(applicants, rs, k), applicants, rs[k..]);
  }

  lemma {:induction false} RunSplits(db: Db, applicants: set<Uuid>, rs: seq<Request>, k: nat)
    requires k <= |rs|
    ensures Run(db, applicants, rs) == Run(Run(db, applicants, rs[..k]), applicants, rs[k..])
    decreases k
  {
    if k > 0 {
      assert rs[..k][1..] == rs[1..][..k - 1] && rs[1..][k - 1..] == rs[k..];
      RunSplits(Step(db, applicants, rs[0]), applicants, rs[1..], k - 1);
    } else {
      assert rs[..0] == [] && rs[0..] == rs;
    }
  }

  lemma CancelsSnoc(applicants: set<Uuid>, rs: seq<Request>, b: Uuid, s: BookingStatus)
    requires rs != []
    ensures var init := rs[..|rs| - 1];
      (exists k :: CancelsAt(applicants, rs, k, b, s)) <==>
        (exists k :: CancelsAt(applicants, init, k, b, s)) || CancelsAt(applicants, rs, |rs| - 1, b, s)
  {
    LastStep(applicants, rs);
    var init := rs[..|rs| - 1];
    hide Run, Step, Inv, MayCancel;
    forall k | 0 <= k < |init| ensures CancelsAt(applicants, rs, k, b, s) <==> CancelsAt(applicants, init, k, b, s) {
    }
    if exists k :: CancelsAt(applicants, rs, k, b, s) {
      var k :| CancelsAt(applicants, rs, k, b, s);
      assert k < |init| ==> CancelsAt(applicants, init, k, b, s);
    }
    if exists k :: CancelsAt(applicants, init, k, b, s) {
      var k :| CancelsAt(applicants, init, k, b, s);
      assert CancelsAt(applicants, rs, k, b, s);
    }
  }

  ghost predicate ClosesAt(applicants: set<Uuid>, rs: seq<Request>, k: int, s: Uuid) {
    && 0 <= k < |rs| && s in Before(applicants, rs, k).slots
    && rs[k] == CancelSlot(s, Before(applicants, rs, k).slots[s].agentUserId)
  }

  /** The life of a slot in any run: opened as its request says, and cancelled exactly when its own agent asked. */
  lemma {:induction false} SlotHistory(applicants: set<Uuid>, rs: seq<Request>, s: Uuid)
    requires s in Run(EMPTY, applicants, rs).slots
    ensures var slot := Run(EMPTY, applicants, rs).slots[s];
      && (exists k :: 0 <= k < |rs| && Opens(rs[k], s, slot.(status := Available)))
      && (slot.status == SlotCancelled <==> exists k :: ClosesAt(applicants, rs, k, s))
    decreases |rs|
  {
    assert rs != [];
    var n := |rs| - 1;
    var init, r := rs[..n], rs[n];
    var was, now := Run(EMPTY, applicants, init), Run(EMPTY, applicants, rs);
    LastStep(applicants, rs);
    SlotChange(was, now, applicants, r, s);
    var slot := now.slots[s];
    hide Step, Inv, Run, Frees;
    forall k | 0 <= k < n ensures ClosesAt(applicants, rs, k, s) <==> ClosesAt(applicants, init, k, s) {
    }
    if s in was.slots {
      SlotHistory(applicants, init, s);
      var k :| 0 <= k < n && Opens(init[k], s, was.slots[s].(status := Available));
      assert Opens(rs[k], s, slot.(status := Available));
      if slot.status == SlotCancelled && was.slots[s].status == SlotCancelled {
        var j :| ClosesAt(applicants, init, j, s);
        assert ClosesAt(applicants, rs, j, s);
      } else if slot.status == SlotCancelled {
        assert ClosesAt(applicants, rs, n, s);
      }
      if exists k :: ClosesAt(applicants, rs, k, s) {
        var j :| ClosesAt(applicants, rs, j, s);
        assert j < n ==> ClosesAt(applicants, init, j, s);
      }
    } else {
      assert Opens(rs[n], s, slot.(status := Available));
      forall k ensures !ClosesAt(applicants, rs, k, s) {
        if ClosesAt(applicants, rs, k, s) {
          StaysThere(applicants, init, k);
        }
      }
    }
  }
}
