/**
 The interleaved statements and the serial transactions are one thing: a transaction that runs alone, from its
 first statement to its end, leaves the slot and its booking as the service's request does.
 */
module SerialAgreement {
  import opened Prelude
  import opened Bookings
  import D = DoubleBooking

  /** The status of the slot's booking row, if there is one. */
  ghost predicate BookingIs(db: Db, slotId: Uuid, booking: Option<BookingStatus>) {
    && (booking.None? <==> forall b :: b in db.bookings ==> db.bookings[b].slotId != slotId)
    && (booking.Some? ==>
          exists b :: b in db.bookings && db.bookings[b].slotId == slotId && db.bookings[b].status == booking.value)
  }

  /** What one transaction on the slot starts from, with no lock held. */
  function Alone(slot: SlotStatus, booking: Option<BookingStatus>, tx: D.Tx): D.State {
    D.State(slot, booking, None, None, [tx], [])
  }

  /** The transaction goes on, statement by statement, for as long as it can. */
  function Finish(s: D.State, statements: nat): D.State
    decreases statements
  {
    if statements == 0 || !D.Enabled(s, D.Proceed(0)) then s
    else Finish(D.Next(s, D.Proceed(0)), statements - 1)
  }

  /** No transaction has more statements than this. */
  const LONGEST := 5

  /** The request that a transaction serves: rightful, as far as it concerns who asks and which ids are new. */
  ghost predicate Serves(tx: D.Tx, db: Db, applicants: set<Uuid>, slotId: Uuid, r: Request) {
    match r
    case CreateBooking(id, s, applicantId, _) =>
      tx == D.Creating(D.Fresh) && s == slotId && id !in db.bookings && applicantId in applicants
    case CancelSlot(s, agent) =>
      tx.CancellingSlot? && s == slotId && s in db.slots && agent == db.slots[s].agentUserId
    case CancelByApplicant(b, applicantId) =>
      && tx.CancellingBooking? && b in db.bookings && db.bookings[b].slotId == slotId
      && applicantId == db.bookings[b].applicantId
    case _ => false
  }

  lemma CreateAlone(slot: SlotStatus, booking: Option<BookingStatus>)
    ensures var end := Finish(Alone(slot, booking, D.Creating(D.Fresh)), LONGEST);
      var books := slot == Available && booking.None?;
      && end.slot == (if books then Booked else slot)
      && end.booking == (if books then Some(Confirmed) else booking)
      && end.slotLock.None? && end.bookingLock.None?
      && end.txs == [if books then D.Creating(D.Committed) else D.RolledBack]
  {
    var s0 := Alone(slot, booking, D.Creating(D.Fresh));
    var s1 := D.Next(s0, D.Proceed(0));
    if slot == Available {
      var s2 := D.Next(s1, D.Proceed(0));
      var s3 := D.Next(s2, D.Proceed(0));
      if booking.None? {
        var s4 := D.Next(s3, D.Proceed(0));
        assert Finish(s4, 1) == s4;
        assert Finish(s3, 2) == s4;
      }
      assert Finish(s2, 3) == Finish(s3, 2);
      assert Finish(s1, 4) == Finish(s2, 3);
    }
  }

  lemma CancelSlotAlone(slot: SlotStatus, booking: Option<BookingStatus>)
    ensures var end := Finish(Alone(slot, booking, D.CancellingSlot), LONGEST);
      && end.slot == SlotCancelled
      && end.booking ==
           (if slot == Booked && booking == Some(Confirmed) then Some(CancelledByAgent) else booking)
      && end.slotLock.None? && end.bookingLock.None? && end.txs == [D.Done]
  {
    var s0 := Alone(slot, booking, D.CancellingSlot);
    var s1 := D.Next(s0, D.Proceed(0));
    var s2 := D.Next(s1, D.Proceed(0));
    var s3 := D.Next(s2, D.Proceed(0));
    if slot == Booked {
      var s4 := D.Next(s3, D.Proceed(0));
      if booking == Some(Confirmed) {
        var s5 := D.Next(s4, D.Proceed(0));
        assert Finish(s4, 1) == s5;
      } else {
        assert Finish(s4, 1) == s4;
      }
      assert Finish(s3, 2) == Finish(s4, 1);
    }
    assert Finish(s2, 3) == Finish(s3, 2);
    assert Finish(s1, 4) == Finish(s2, 3);
  }

  lemma CancelBookingAlone(slot: SlotStatus, booking: Option<BookingStatus>)
    ensures var end := Finish(Alone(slot, booking, D.CancellingBooking), LONGEST);
      var cancels := booking == Some(Confirmed);
      && end.slot == (if cancels then Available else slot)
      && end.booking == (if cancels then Some(CancelledByApplicant) else booking)
      && end.slotLock.None? && end.bookingLock.None? && end.txs == [if cancels then D.Done else D.RolledBack]
  {
    var s0 := Alone(slot, booking, D.CancellingBooking);
    var s1 := D.Next(s0, D.Proceed(0));
    if booking == Some(Confirmed) {
      var s2 := D.Next(s1, D.Proceed(0));
      var s3 := D.Next(s2, D.Proceed(0));
      var s4 := D.Next(s3, D.Proceed(0));
      assert Finish(s4, 1) == s4;
      assert Finish(s3, 2) == s4;
      assert Finish(s2, 3) == Finish(s3, 2);
      assert Finish(s1, 4) == Finish(s2, 3);
    }
  }

  /** The two models agree on every request that is served. */
  lemma AloneIsSerial(db: Db, applicants: set<Uuid>, slotId: Uuid, booking: Option<BookingStatus>, tx: D.Tx, r: Request)
    requires Inv(db) && slotId in db.slots && BookingIs(db, slotId, booking) && Serves(tx, db, applicants, slotId, r)
    ensures var end := Finish(Alone(db.slots[slotId].status, booking, tx), LONGEST);
      var db' := Step(db, applicants, r);
      && end.slot == db'.slots[slotId].status && BookingIs(db', slotId, end.booking)
      && end.slotLock.None? && end.bookingLock.None?
  {
    hide Finish, Alone;
    var slot := db.slots[slotId].status;
    match r
    case CreateBooking(id, _, _, _) =>
      CreateAlone(slot, booking);
      CreateSteps(db, applicants, slotId, booking, r);
    case CancelSlot(_, _) =>
      CancelSlotAlone(slot, booking);
      CancelSlotSteps(db, applicants, slotId, booking, r);
    case CancelByApplicant(_, _) =>
      CancelBookingAlone(slot, booking);
      CancelBookingSteps(db, applicants, slotId, booking, r);
  }

  lemma CreateSteps(db: Db, applicants: set<Uuid>, slotId: Uuid, booking: Option<BookingStatus>, r: Request)
    requires Inv(db) && slotId in db.slots && BookingIs(db, slotId, booking)
    requires r.CreateBooking? && r.slotId == slotId && r.id !in db.bookings && r.applicantId in applicants
    ensures var db' := Step(db, applicants, r); var books := db.slots[slotId].status == Available && booking.None?;
      && db'.slots[slotId].status == (if books then Booked else db.slots[slotId].status)
      && BookingIs(db', slotId, if books then Some(Confirmed) else booking)
  {
    hide UniqueSlotId, HasConfirmed;
    CreateSucceedsIff(db, applicants, r.id, slotId, r.applicantId, r.notes);
    var db' := Step(db, applicants, r);
    if db' != db {
      assert db'.bookings[r.id].slotId == slotId && db'.bookings[r.id].status == Confirmed;
    }
  }

  lemma CancelSlotSteps(db: Db, applicants: set<Uuid>, slotId: Uuid, booking: Option<BookingStatus>, r: Request)
    requires Inv(db) && slotId in db.slots && BookingIs(db, slotId, booking)
    requires r == CancelSlot(slotId, db.slots[slotId].agentUserId)
    ensures var db' := Step(db, applicants, r);
      && db'.slots[slotId].status == SlotCancelled
      && BookingIs(db', slotId,
           if db.slots[slotId].status == Booked && booking == Some(Confirmed) then Some(CancelledByAgent) else booking)
  {
    var db' := Step(db, applicants, r);
    if booking.Some? {
      var b :| b in db.bookings && db.bookings[b].slotId == slotId && db.bookings[b].status == booking.value;
      assert db'.bookings[b].slotId == slotId;
    }
  }

  lemma CancelBookingSteps(db: Db, applicants: set<Uuid>, slotId: Uuid, booking: Option<BookingStatus>, r: Request)
    requires Inv(db) && slotId in db.slots && BookingIs(db, slotId, booking)
    requires r.CancelByApplicant? && r.bookingId in db.bookings && db.bookings[r.bookingId].slotId == slotId
    requires r.applicantId == db.bookings[r.bookingId].applicantId
    ensures var db' := Step(db, applicants, r); var cancels := booking == Some(Confirmed);
      && db'.slots[slotId].status == (if cancels then Available else db.slots[slotId].status)
      && BookingIs(db', slotId, if cancels then Some(CancelledByApplicant) else booking)
  {
    var db' := Step(db, applicants, r);
    var b :| b in db.bookings && db.bookings[b].slotId == slotId && db.bookings[b].status == booking.value;
    assert b == r.bookingId;
    assert db'.bookings[b].slotId == slotId;
  }
}
