/**
 Transactions on one slot, interleaved statement by statement: any number of `create`s, and with them slot
 cancellations and booking cancellations. A read sees what is committed. An UPDATE takes the row's lock, waits
 while another transaction holds it, and re-checks its WHERE clause on the committed row; locks are held, and
 writes stay invisible, until commit or rollback.
 */
module DoubleBooking {
  import opened Prelude
  import opened Bookings

  datatype CreateStep = Fresh | Found | Updated | Inserted | Committed

  datatype Tx =
    | Creating(at: CreateStep)
    | CancellingSlot
    | SlotSeen                     // it saw the slot BOOKED and goes on to its booking
    | SlotRead(cascade: bool)      // `cascade`: it saw a confirmed booking
    | CascadeWritten               // booking row updated and locked
    | SlotWritten(cascade: bool)   // slot row updated and locked
    | CancellingBooking
    | BookingRead                  // it saw its booking confirmed
    | BookingWritten               // booking row updated and locked
    | SlotFreed                    // slot row updated and locked
    | Done
    | RolledBack

  /** `slot` and `booking` are committed: the slot's status and its booking row, if there is one. */
  datatype State = State(
    slot: SlotStatus, booking: Option<BookingStatus>, slotLock: Option<nat>, bookingLock: Option<nat>, txs: seq<Tx>,
    commits: seq<(nat, SlotStatus)>)   // who committed a booking, and the status it replaced

  datatype Action = Proceed(t: nat) | Rollback(t: nat)

  predicate Active(tx: Tx) {
    !tx.Done? && !tx.RolledBack? && tx != Creating(Committed)
  }

  /** The next statement updates the slot row. */
  predicate NeedsSlot(tx: Tx) {
    tx == Creating(Found) || tx == SlotRead(false) || tx.CascadeWritten? || tx.BookingWritten?
  }

  /** The next statement updates the booking row. */
  predicate NeedsBooking(tx: Tx) {
    tx == SlotRead(true) || tx.BookingRead?
  }

  predicate Enabled(s: State, a: Action) {
    && a.t < |s.txs| && Active(s.txs[a.t])
    && (a.Proceed? && NeedsSlot(s.txs[a.t]) ==> s.slotLock.None?)
    && (a.Proceed? && NeedsBooking(s.txs[a.t]) ==> s.bookingLock.None?)
  }

  function Move(s: State, t: nat, tx: Tx): State
    requires t < |s.txs|
  {
    s.(txs := s.txs[t := tx])
  }

  function LockSlot(s: State, t: nat): State { s.(slotLock := Some(t)) }

  function LockBooking(s: State, t: nat): State { s.(bookingLock := Some(t)) }

  /** The end of a transaction, committed or not, releases its locks. */
  function Release(s: State, t: nat): State {
    s.(slotLock := if s.slotLock == Some(t) then None else s.slotLock,
       bookingLock := if s.bookingLock == Some(t) then None else s.bookingLock)
  }

  function Abort(s: State, t: nat): State
    requires t < |s.txs|
  {
    Release(Move(s, t, RolledBack), t)
  }

  function Next(s: State, a: Action): State
    requires Enabled(s, a)
  {
    var t := a.t;
    if a.Rollback? then Abort(s, t)
    else match s.txs[t]
      case Creating(Fresh) =>                         // SELECT the slot
        if s.slot == Available then Move(s, t, Creating(Found)) else Abort(s, t)
      case Creating(Found) =>                         // UPDATE ... WHERE status = 'available'
        if s.slot == Available then LockSlot(Move(s, t, Creating(Updated)), t) else Abort(s, t)
      case Creating(Updated) =>                       // INSERT, under UNIQUE (slot_id)
        if s.booking.None? then Move(s, t, Creating(Inserted)) else Abort(s, t)
      case Creating(Inserted) =>                      // COMMIT
        Release(Move(s, t, Creating(Committed)), t).(
          slot := Booked, booking := Some(Confirmed), commits := s.commits + [(t, s.slot)])
      case CancellingSlot =>                          // SELECT the slot
        Move(s, t, if s.slot == Booked then SlotSeen else SlotRead(false))
      case SlotSeen =>                                // SELECT its booking
        Move(s, t, SlotRead(s.booking == Some(Confirmed)))
      case SlotRead(cascade) =>                       // UPDATE the booking, or straight the slot
        if cascade then LockBooking(Move(s, t, CascadeWritten), t) else LockSlot(Move(s, t, SlotWritten(false)), t)
      case CascadeWritten =>                          // UPDATE the slot, whatever its status
        LockSlot(Move(s, t, SlotWritten(true)), t)
      case SlotWritten(cascade) =>                    // COMMIT
        Release(Move(s, t, Done), t).(
          slot := SlotCancelled, booking := if cascade then Some(CancelledByAgent) else s.booking)
      case CancellingBooking =>                       // SELECT the booking
        if s.booking == Some(Confirmed) then Move(s, t, BookingRead) else Abort(s, t)
      case BookingRead =>                             // UPDATE the booking
        LockBooking(Move(s, t, BookingWritten), t)
      case BookingWritten =>                          // UPDATE the slot, whatever its status
        LockSlot(Move(s, t, SlotFreed), t)
      case SlotFreed =>                               // COMMIT
        Release(Move(s, t, Done), t).(slot := Available, booking := Some(CancelledByApplicant))
      case _ => s
  }

  function Exec(s: State, schedule: seq<Action>): Option<State>
    decreases |schedule|
  {
    if schedule == [] then Some(s)
    else if Enabled(s, schedule[0]) then Exec(Next(s, schedule[0]), schedule[1..])
    else None
  }

  predicate Starting(tx: Tx) {
    tx == Creating(Fresh) || tx.CancellingSlot? || tx.CancellingBooking?
  }

  /** Any committed row pair, any number of transactions about to start. */
  ghost predicate Initial(s: State) {
    s.slotLock.None? && s.bookingLock.None? && s.commits == [] && forall t :: 0 <= t < |s.txs| ==> Starting(s.txs[t])
  }

  predicate HoldsSlot(tx: Tx) {
    tx == Creating(Updated) || tx == Creating(Inserted) || tx.SlotWritten? || tx.SlotFreed?
  }

  predicate HoldsBooking(tx: Tx) {
    tx.CascadeWritten? || tx == SlotWritten(true) || tx.BookingWritten? || tx.SlotFreed?
  }

  /** It is about to change a booking row it has seen. */
  predicate KnowsBooking(tx: Tx) {
    tx == SlotRead(true) || tx.BookingRead? || HoldsBooking(tx)
  }

  ghost predicate LocksOk(s: State) {
    && (forall t :: 0 <= t < |s.txs| ==> (HoldsSlot(s.txs[t]) <==> s.slotLock == Some(t)))
    && (forall t :: 0 <= t < |s.txs| ==> (HoldsBooking(s.txs[t]) <==> s.bookingLock == Some(t)))
    && (s.slotLock.Some? ==> s.slotLock.value < |s.txs|)
    && (s.bookingLock.Some? ==> s.bookingLock.value < |s.txs|)
  }

  ghost predicate TxOk(s: State, tx: Tx) {
    && (tx == Creating(Updated) || tx == Creating(Inserted) ==> s.slot == Available)
    && (tx == Creating(Inserted) ==> s.booking.None?)
    && (KnowsBooking(tx) ==> s.booking.Some?)
  }

  ghost predicate CommitsOk(s: State) {
    && |s.commits| <= 1
    && (s.booking.None? ==> s.commits == [])
    && (forall t :: 0 <= t < |s.txs| ==> (s.txs[t] == Creating(Committed) <==> s.commits == [(t, Available)]))
    && (s.commits != [] ==> s.commits[0].0 < |s.txs| && s.commits[0].1 == Available)
  }

  ghost predicate Inv(s: State) {
    LocksOk(s) && CommitsOk(s) && forall t :: 0 <= t < |s.txs| ==> TxOk(s, s.txs[t])
  }

  // ---------- Every statement keeps the invariant ----------

  lemma AbortKeepsInv(s: State, t: nat)
    requires Inv(s) && t < |s.txs| && Active(s.txs[t])
    ensures Inv(Abort(s, t))
  {
    assert s.txs[t] != Creating(Committed);
  }

  /** A read, or the INSERT: rows and locks stay as they are. */
  lemma MoveKeepsInv(s: State, t: nat, tx: Tx)
    requires Inv(s) && t < |s.txs| && Active(s.txs[t]) && tx != Creating(Committed)
    requires HoldsSlot(tx) == HoldsSlot(s.txs[t]) && HoldsBooking(tx) == HoldsBooking(s.txs[t])
    requires TxOk(s, tx)
    ensures Inv(Move(s, t, tx))
  {
  }

  lemma SlotUpdateKeepsInv(s: State, t: nat, tx: Tx)
    requires Inv(s) && t < |s.txs| && Active(s.txs[t]) && tx != Creating(Committed) && s.slotLock.None?
    requires HoldsSlot(tx) && HoldsBooking(tx) == HoldsBooking(s.txs[t]) && TxOk(s, tx)
    ensures Inv(LockSlot(Move(s, t, tx), t))
  {
  }

  lemma BookingUpdateKeepsInv(s: State, t: nat, tx: Tx)
    requires Inv(s) && t < |s.txs| && Active(s.txs[t]) && tx != Creating(Committed) && s.bookingLock.None?
    requires HoldsBooking(tx) && !HoldsSlot(tx) && !HoldsSlot(s.txs[t]) && TxOk(s, tx)
    ensures Inv(LockBooking(Move(s, t, tx), t))
  {
  }

  /** Whoever commits a cancellation holds the slot row, so no `create` is between its update and its commit. */
  lemma CancelCommitKeepsInv(s: State, t: nat)
    requires Inv(s) && Enabled(s, Proceed(t)) && (s.txs[t].SlotWritten? || s.txs[t].SlotFreed?)
    ensures Inv(Next(s, Proceed(t)))
    ensures s.booking.Some? ==> Next(s, Proceed(t)).booking.Some?
  {
    var s' := Next(s, Proceed(t));
    assert s'.txs == s.txs[t := Done];
    assert HoldsSlot(s.txs[t]) && s.slotLock == Some(t);
    assert TxOk(s, s.txs[t]);
    forall u | 0 <= u < |s'.txs| ensures TxOk(s', s'.txs[u]) {
      if u != t {
        assert TxOk(s, s.txs[u]) && !HoldsSlot(s.txs[u]);
      }
    }
  }

  lemma CreateCommitKeepsInv(s: State, t: nat)
    requires Inv(s) && Enabled(s, Proceed(t)) && s.txs[t] == Creating(Inserted)
    ensures Inv(Next(s, Proceed(t))) && s.booking.None?
  {
    var s' := Next(s, Proceed(t));
    assert TxOk(s, s.txs[t]) && HoldsSlot(s.txs[t]) && s.slotLock == Some(t) && s.commits == [];
    assert s'.commits == [(t, Available)] && s'.txs == s.txs[t := Creating(Committed)];
    forall u | 0 <= u < |s'.txs| ensures s'.txs[u] == Creating(Committed) <==> u == t {
      assert s.txs[u] != Creating(Committed);
    }
    forall u | 0 <= u < |s'.txs| ensures TxOk(s', s'.txs[u]) {
      if u != t {
        assert TxOk(s, s.txs[u]) && !HoldsSlot(s.txs[u]);
      }
    }
  }

  lemma Known(s: State, t: nat)
    requires Inv(s) && t < |s.txs|
    ensures TxOk(s, s.txs[t])
    ensures HoldsSlot(s.txs[t]) <==> s.slotLock == Some(t)
    ensures HoldsBooking(s.txs[t]) <==> s.bookingLock == Some(t)
  {
  }

  lemma InvKept(s: State, a: Action)
    requires Inv(s) && Enabled(s, a)
    ensures Inv(Next(s, a))
    ensures s.booking.Some? ==> Next(s, a).booking.Some? && Next(s, a).commits == s.commits
  {
    hide Inv;
    var t := a.t;
    AbortKeepsInv(s, t);
    Known(s, t);
    if a.Proceed? {
      match s.txs[t]
      case Creating(Fresh) => MoveKeepsInv(s, t, Creating(Found));
      case Creating(Found) => if s.slot == Available { SlotUpdateKeepsInv(s, t, Creating(Updated)); }
      case Creating(Updated) => if s.booking.None? { MoveKeepsInv(s, t, Creating(Inserted)); }
      case Creating(Inserted) => CreateCommitKeepsInv(s, t);
      case CancellingSlot => MoveKeepsInv(s, t, if s.slot == Booked then SlotSeen else SlotRead(false));
      case SlotSeen => MoveKeepsInv(s, t, SlotRead(s.booking == Some(Confirmed)));
      case SlotRead(cascade) =>
        if cascade {
          BookingUpdateKeepsInv(s, t, CascadeWritten);
        } else {
          SlotUpdateKeepsInv(s, t, SlotWritten(false));
        }
      case CascadeWritten => SlotUpdateKeepsInv(s, t, SlotWritten(true));
      case SlotWritten(_) => CancelCommitKeepsInv(s, t);
      case CancellingBooking => if s.booking == Some(Confirmed) { MoveKeepsInv(s, t, BookingRead); }
      case BookingRead => BookingUpdateKeepsInv(s, t, BookingWritten);
      case BookingWritten => SlotUpdateKeepsInv(s, t, SlotFreed);
      case SlotFreed => CancelCommitKeepsInv(s, t);
      case _ =>
    }
  }

  lemma {:induction false} InvFrom(s: State, schedule: seq<Action>)
    requires Inv(s) && Exec(s, schedule).Some?
    ensures Inv(Exec(s, schedule).value)
    ensures s.booking.Some? ==> Exec(s, schedule).value.commits == s.commits
    decreases |schedule|
  {
    hide Next, Enabled, Inv;
    if schedule != [] {
      InvKept(s, schedule[0]);
      InvFrom(Next(s, schedule[0]), schedule[1..]);
    }
  }

  lemma InitialInv(s: State)
    requires Initial(s)
    ensures Inv(s)
  {
  }

  /**
   For any interleaving at most one `create` on the slot commits; it moved the slot from available to
   booked itself; and none commits when the slot has a booking row already, cancelled or not.
   */
  lemma NoDoubleBooking(s: State, schedule: seq<Action>)
    requires Initial(s) && Exec(s, schedule).Some?
    ensures var end := Exec(s, schedule).value;
      && (forall t, u | 0 <= t < |end.txs| && 0 <= u < |end.txs| ::
            end.txs[t] == Creating(Committed) && end.txs[u] == Creating(Committed) ==> t == u)
      && (forall t :: 0 <= t < |end.txs| && end.txs[t] == Creating(Committed) ==> end.commits == [(t, Available)])
      && (s.booking.Some? ==> forall t :: 0 <= t < |end.txs| ==> end.txs[t] != Creating(Committed))
  {
    hide Next, Enabled;
    InvFrom(s, schedule);
  }

  // ---------- The coupling of slot and booking, over whole schedules ----------

  predicate Coupled(s: State) {
    s.slot == Booked <==> s.booking == Some(Confirmed)
  }

  /** Coupled before the schedule and after each of its steps. */
  ghost predicate CoupledThroughout(s: State, schedule: seq<Action>)
    requires Exec(s, schedule).Some?
    decreases |schedule|
  {
    Coupled(s) && (schedule != [] ==> CoupledThroughout(Next(s, schedule[0]), schedule[1..]))
  }

  /** The step commits a slot cancellation that leaves a confirmed booking behind. */
  predicate Strands(s: State, a: Action)
    requires Enabled(s, a)
  {
    a.Proceed? && s.txs[a.t] == SlotWritten(false) && s.booking == Some(Confirmed)
  }

  ghost predicate NeverStrands(s: State, schedule: seq<Action>)
    requires Exec(s, schedule).Some?
    decreases |schedule|
  {
    schedule != [] ==> !Strands(s, schedule[0]) && NeverStrands(Next(s, schedule[0]), schedule[1..])
  }

  lemma StepCouplesIff(s: State, a: Action)
    requires Inv(s) && Enabled(s, a) && Coupled(s)
    ensures Coupled(Next(s, a)) <==> !Strands(s, a)
  {
    if a.Proceed? && s.txs[a.t] == SlotWritten(true) {
      assert Coupled(Next(s, a));
    }
  }

  /**
   Over every interleaving: "booked iff confirmed" holds throughout exactly when no slot cancellation commits,
   without having seen it, over a confirmed booking.
   */
  lemma {:induction false} CoupledIff(s: State, schedule: seq<Action>)
    requires Inv(s) && Coupled(s) && Exec(s, schedule).Some?
    ensures CoupledThroughout(s, schedule) <==> NeverStrands(s, schedule)
    decreases |schedule|
  {
    hide Next, Enabled, Inv, Strands, Coupled;
    if schedule != [] {
      var a, s' := schedule[0], Next(s, schedule[0]);
      InvKept(s, a);
      StepCouplesIff(s, a);
      if Coupled(s') {
        CoupledIff(s', schedule[1..]);
      }
    }
  }

  predicate CancelsSlot(tx: Tx) {
    tx.CancellingSlot? || tx.SlotSeen? || tx.SlotRead? || tx.CascadeWritten? || tx.SlotWritten?
  }

  ghost predicate NoSlotCancels(s: State) {
    forall t :: 0 <= t < |s.txs| ==> !CancelsSlot(s.txs[t])
  }

  lemma NoSlotCancelsKept(s: State, a: Action)
    requires Enabled(s, a) && NoSlotCancels(s)
    ensures NoSlotCancels(Next(s, a)) && !Strands(s, a)
  {
  }

  lemma {:induction false} NoneToStrand(s: State, schedule: seq<Action>)
    requires Exec(s, schedule).Some? && NoSlotCancels(s)
    ensures NeverStrands(s, schedule)
    decreases |schedule|
  {
    hide Next, Enabled, Strands, NoSlotCancels;
    if schedule != [] {
      NoSlotCancelsKept(s, schedule[0]);
      NoneToStrand(Next(s, schedule[0]), schedule[1..]);
    }
  }

  /** Creates and booking cancellations alone keep the coupling in every interleaving. */
  lemma CoupledWithoutSlotCancels(s: State, schedule: seq<Action>)
    requires Initial(s) && Coupled(s) && NoSlotCancels(s) && Exec(s, schedule).Some?
    ensures CoupledThroughout(s, schedule)
  {
    InitialInv(s);
    NoneToStrand(s, schedule);
    CoupledIff(s, schedule);
  }

  /** A slot cancellation that has read and not yet committed. */
  predicate MidCancel(tx: Tx) {
    tx.SlotSeen? || tx.SlotRead? || tx.CascadeWritten? || tx.SlotWritten?
  }

  /** No `create` commits while a slot cancellation is between its read and its commit. */
  ghost predicate NoCreateMidCancel(s: State, schedule: seq<Action>)
    requires Exec(s, schedule).Some?
    decreases |schedule|
  {
    schedule != [] ==>
      && (schedule[0].Proceed? && s.txs[schedule[0].t] == Creating(Inserted) ==>
            forall u :: 0 <= u < |s.txs| ==> !MidCancel(s.txs[u]))
      && NoCreateMidCancel(Next(s, schedule[0]), schedule[1..])
  }

  /** A cancellation that goes without the cascade still has nothing to cascade to. */
  ghost predicate FreshReads(s: State) {
    forall t :: 0 <= t < |s.txs| && (s.txs[t] == SlotRead(false) || s.txs[t] == SlotWritten(false)) ==>
      s.booking != Some(Confirmed)
  }

  lemma FreshReadsKept(s: State, a: Action)
    requires Enabled(s, a) && Coupled(s) && FreshReads(s)
    requires a.Proceed? && s.txs[a.t] == Creating(Inserted) ==> forall u :: 0 <= u < |s.txs| ==> !MidCancel(s.txs[u])
    ensures FreshReads(Next(s, a)) && !Strands(s, a)
  {
  }

  lemma {:induction false} FreshReadsNeverStrand(s: State, schedule: seq<Action>)
    requires Inv(s) && Coupled(s) && FreshReads(s) && Exec(s, schedule).Some? && NoCreateMidCancel(s, schedule)
    ensures NeverStrands(s, schedule)
    decreases |schedule|
  {
    hide Next, Enabled, Strands, Inv, Coupled, FreshReads;
    if schedule != [] {
      FreshReadsKept(s, schedule[0]);
      InvKept(s, schedule[0]);
      StepCouplesIff(s, schedule[0]);
      FreshReadsNeverStrand(Next(s, schedule[0]), schedule[1..]);
    }
  }

  /** With slot cancellations, it is enough that no `create` commits between one's read and its commit. */
  lemma CoupledWhenReadsStayFresh(s: State, schedule: seq<Action>)
    requires Initial(s) && Coupled(s) && Exec(s, schedule).Some? && NoCreateMidCancel(s, schedule)
    ensures CoupledThroughout(s, schedule)
  {
    InitialInv(s);
    FreshReadsNeverStrand(s, schedule);
    CoupledIff(s, schedule);
  }

  lemma {:induction false} TraceIsRun(states: seq<State>, schedule: seq<Action>)
    requires |states| == |schedule| + 1
    requires forall i :: 0 <= i < |schedule| ==>
      Enabled(states[i], schedule[i]) && states[i + 1] == Next(states[i], schedule[i])
    ensures Exec(states[0], schedule) == Some(states[|schedule|])
    decreases |schedule|
  {
    hide Next, Enabled;
    if schedule != [] {
      assert forall i :: 0 <= i < |schedule[1..]| ==>
        states[1..][i] == states[i + 1] && schedule[1..][i] == schedule[i + 1];
      TraceIsRun(states[1..], schedule[1..]);
    }
  }

  lemma CreateAfterRead()
    ensures var s := State(Available, None, None, None, [CancellingSlot, Creating(Fresh)], []);
      Exec(s, [Proceed(0), Proceed(1), Proceed(1), Proceed(1), Proceed(1)]) ==
      Some(State(Booked, Some(Confirmed), None, None, [SlotRead(false), Creating(Committed)], [(1, Available)]))
  {
    var s0 := State(Available, None, None, None, [CancellingSlot, Creating(Fresh)], []);
    var s1 := s0.(txs := [SlotRead(false), Creating(Fresh)]);
    var s2 := s0.(txs := [SlotRead(false), Creating(Found)]);
    var s3 := s0.(txs := [SlotRead(false), Creating(Updated)], slotLock := Some(1));
    var s4 := s3.(txs := [SlotRead(false), Creating(Inserted)]);
    var s5 := State(Booked, Some(Confirmed), None, None, [SlotRead(false), Creating(Committed)], [(1, Available)]);
    TraceIsRun([s0, s1, s2, s3, s4, s5], [Proceed(0), Proceed(1), Proceed(1), Proceed(1), Proceed(1)]);
  }

  /** A stale slot cancellation: it reads the slot available, a `create` commits, then it writes and commits. */
  lemma StaleSlotCancelDecouples()
    ensures var s := State(Available, None, None, None, [CancellingSlot, Creating(Fresh)], []);
      var mid := Exec(s, [Proceed(0), Proceed(1), Proceed(1), Proceed(1), Proceed(1)]);
      && Initial(s) && Coupled(s) && mid.Some? && Exec(mid.value, [Proceed(0), Proceed(0)]).Some?
      && Exec(mid.value, [Proceed(0), Proceed(0)]).value.slot == SlotCancelled
      && Exec(mid.value, [Proceed(0), Proceed(0)]).value.booking == Some(Confirmed)
  {
    CreateAfterRead();
    var s5 := State(Booked, Some(Confirmed), None, None, [SlotRead(false), Creating(Committed)], [(1, Available)]);
    var s6 := s5.(txs := [SlotWritten(false), Creating(Committed)], slotLock := Some(0));
    var s7 := s5.(txs := [Done, Creating(Committed)], slot := SlotCancelled);
    hide Exec;
    TraceIsRun([s5, s6, s7], [Proceed(0), Proceed(0)]);
  }

  lemma CancelAfterRead()
    ensures var s := State(Booked, Some(Confirmed), None, None, [CancellingBooking, CancellingSlot], []);
      Exec(s, [Proceed(0), Proceed(1), Proceed(1), Proceed(1), Proceed(1), Proceed(1)]) ==
      Some(State(SlotCancelled, Some(CancelledByAgent), None, None, [BookingRead, Done], []))
  {
    var s0 := State(Booked, Some(Confirmed), None, None, [CancellingBooking, CancellingSlot], []);
    var s3 := s0.(txs := [BookingRead, SlotRead(true)]);
    hide Exec, Next, Enabled;
    BothRead(s0, s3);
    assert [Proceed(0), Proceed(1), Proceed(1), Proceed(1), Proceed(1), Proceed(1)]
        == [Proceed(0), Proceed(1), Proceed(1)] + [Proceed(1), Proceed(1), Proceed(1)];
    ExecConcat(s0, [Proceed(0), Proceed(1), Proceed(1)], [Proceed(1), Proceed(1), Proceed(1)]);
    CascadeCommits(s3);
  }

  lemma BothRead(s0: State, s3: State)
    requires s0 == State(Booked, Some(Confirmed), None, None, [CancellingBooking, CancellingSlot], [])
    requires s3 == s0.(txs := [BookingRead, SlotRead(true)])
    ensures Exec(s0, [Proceed(0), Proceed(1), Proceed(1)]) == Some(s3)
  {
    var s1 := s0.(txs := [BookingRead, CancellingSlot]);
    var s2 := s0.(txs := [BookingRead, SlotSeen]);
    TraceIsRun([s0, s1, s2, s3], [Proceed(0), Proceed(1), Proceed(1)]);
  }

  lemma CascadeCommits(s3: State)
    requires s3 == State(Booked, Some(Confirmed), None, None, [BookingRead, SlotRead(true)], [])
    ensures Exec(s3, [Proceed(1), Proceed(1), Proceed(1)]) ==
      Some(State(SlotCancelled, Some(CancelledByAgent), None, None, [BookingRead, Done], []))
  {
    var s4 := s3.(txs := [BookingRead, CascadeWritten], bookingLock := Some(1));
    var s5 := s4.(txs := [BookingRead, SlotWritten(true)], slotLock := Some(1));
    var s6 := State(SlotCancelled, Some(CancelledByAgent), None, None, [BookingRead, Done], []);
    TraceIsRun([s3, s4, s5, s6], [Proceed(1), Proceed(1), Proceed(1)]);
  }

  lemma {:induction false} ExecConcat(s: State, a: seq<Action>, b: seq<Action>)
    requires Exec(s, a).Some?
    ensures Exec(s, a + b) == Exec(Exec(s, a).value, b)
    decreases |a|
  {
    hide Next, Enabled;
    if a == [] {
      assert a + b == b;
    } else {
      assert (a + b)[1..] == a[1..] + b;
      ExecConcat(Next(s, a[0]), a[1..], b);
    }
  }

  /** A booking cancellation that read before a slot cancellation committed re-opens the cancelled slot. */
  lemma StaleBookingCancelReopens()
    ensures var s := State(Booked, Some(Confirmed), None, None, [CancellingBooking, CancellingSlot], []);
      var mid := Exec(s, [Proceed(0), Proceed(1), Proceed(1), Proceed(1), Proceed(1), Proceed(1)]);
      && Initial(s) && Coupled(s) && mid.Some? && mid.value.slot == SlotCancelled
      && Exec(mid.value, [Proceed(0), Proceed(0), Proceed(0)]).Some?
      && Exec(mid.value, [Proceed(0), Proceed(0), Proceed(0)]).value.slot == Available
  {
    hide Exec, Next, Enabled;
    CancelAfterRead();
    WriteAfterCancel();
  }

  lemma WriteAfterCancel()
    ensures Exec(State(SlotCancelled, Some(CancelledByAgent), None, None, [BookingRead, Done], []),
                 [Proceed(0), Proceed(0), Proceed(0)]) ==
      Some(State(Available, Some(CancelledByApplicant), None, None, [Done, Done], []))
  {
    var s6 := State(SlotCancelled, Some(CancelledByAgent), None, None, [BookingRead, Done], []);
    var s7 := s6.(txs := [BookingWritten, Done], bookingLock := Some(0));
    var s8 := s7.(txs := [SlotFreed, Done], slotLock := Some(0));
    var s9 := State(Available, Some(CancelledByApplicant), None, None, [Done, Done], []);
    TraceIsRun([s6, s7, s8, s9], [Proceed(0), Proceed(0), Proceed(0)]);
  }

  // ---------- A cancelled slot, over whole schedules ----------

  /** A booking cancellation that has seen its booking confirmed and will free the slot without looking at it. */
  predicate SawConfirmed(tx: Tx) {
    tx.BookingRead? || tx.BookingWritten? || tx.SlotFreed?
  }

  /** It has read, or can still read, a confirmed booking. */
  predicate CanFree(s: State, tx: Tx) {
    SawConfirmed(tx) || (tx.CancellingBooking? && s.booking == Some(Confirmed))
  }

  ghost predicate StaysCancelled(s: State) {
    forall schedule | Exec(s, schedule).Some? :: Exec(s, schedule).value.slot == SlotCancelled
  }

  ghost predicate NoneCanFree(s: State) {
    forall t :: 0 <= t < |s.txs| ==> !CanFree(s, s.txs[t])
  }

  lemma CancelledStep(s: State, a: Action)
    requires Inv(s) && Enabled(s, a) && s.slot == SlotCancelled && NoneCanFree(s)
    ensures Next(s, a).slot == SlotCancelled && NoneCanFree(Next(s, a))
  {
    Known(s, a.t);
    assert !CanFree(s, s.txs[a.t]);
    var s' := Next(s, a);
    forall t | 0 <= t < |s'.txs| ensures !CanFree(s', s'.txs[t]) {
      assert !CanFree(s, s.txs[t]);
    }
  }

  lemma {:induction false} CancelledFrom(s: State, schedule: seq<Action>)
    requires Inv(s) && s.slot == SlotCancelled && NoneCanFree(s) && Exec(s, schedule).Some?
    ensures Exec(s, schedule).value.slot == SlotCancelled
    decreases |schedule|
  {
    hide Next, Enabled, Inv, NoneCanFree;
    if schedule != [] {
      CancelledStep(s, schedule[0]);
      InvKept(s, schedule[0]);
      CancelledFrom(Next(s, schedule[0]), schedule[1..]);
    }
  }

  /** Statements a booking cancellation still has before it. */
  function Left(tx: Tx): nat {
    match tx
    case CancellingBooking => 3
    case BookingRead => 2
    case BookingWritten => 1
    case _ => 0
  }

  function Held(s: State): nat {
    (if s.slotLock.Some? then 1 else 0) + (if s.bookingLock.Some? then 1 else 0)
  }

  /** The transaction proceeds; whoever holds the row it waits for is rolled back first. */
  function Push(s: State, t: nat): Action
    requires t < |s.txs|
  {
    if NeedsSlot(s.txs[t]) && s.slotLock.Some? then Rollback(s.slotLock.value)
    else if NeedsBooking(s.txs[t]) && s.bookingLock.Some? then Rollback(s.bookingLock.value)
    else Proceed(t)
  }

  lemma PushMakesWay(s: State, t: nat)
    requires Inv(s) && s.slot == SlotCancelled && t < |s.txs| && CanFree(s, s.txs[t]) && !s.txs[t].SlotFreed?
    ensures var a := Push(s, t);
      && Enabled(s, a) && Next(s, a).slot == SlotCancelled
      && |Next(s, a).txs| == |s.txs| && CanFree(Next(s, a), Next(s, a).txs[t])
      && (Left(Next(s, a).txs[t]) < Left(s.txs[t])
          || (Next(s, a).txs[t] == s.txs[t] && Held(Next(s, a)) < Held(s)))
  {
    Known(s, t);
    if s.slotLock.Some? {
      Known(s, s.slotLock.value);
    }
    if s.bookingLock.Some? {
      Known(s, s.bookingLock.value);
    }
  }

  lemma {:induction false} Freed(s: State, t: nat) returns (schedule: seq<Action>)
    requires Inv(s) && s.slot == SlotCancelled && t < |s.txs| && CanFree(s, s.txs[t])
    ensures Exec(s, schedule).Some? && Exec(s, schedule).value.slot == Available
    decreases Left(s.txs[t]), Held(s)
  {
    hide Inv;
    var a := Push(s, t);
    if s.txs[t].SlotFreed? {
      schedule := [Proceed(t)];
      assert Exec(Next(s, Proceed(t)), schedule[1..]) == Some(Next(s, Proceed(t)));
    } else {
      PushMakesWay(s, t);
      InvKept(s, a);
      hide Next, Enabled, Push, Left, Held, CanFree;
      var rest := Freed(Next(s, a), t);
      schedule := [a] + rest;
      assert schedule[1..] == rest;
    }
  }

  /**
   Once the slot is cancelled, every schedule keeps it cancelled throughout if and only if no booking
   cancellation has seen its booking confirmed, and none that is about to read would.
   */
  lemma CancelledForGoodIff(s: State)
    requires Inv(s) && s.slot == SlotCancelled
    ensures StaysCancelled(s) <==> NoneCanFree(s)
  {
    hide Exec, Inv, CanFree;
    if NoneCanFree(s) {
      forall schedule | Exec(s, schedule).Some? ensures Exec(s, schedule).value.slot == SlotCancelled {
        CancelledFrom(s, schedule);
      }
    } else {
      var t :| 0 <= t < |s.txs| && CanFree(s, s.txs[t]);
      var schedule := Freed(s, t);
      assert Exec(s, schedule).value.slot != SlotCancelled;
    }
  }

  /** With the coupling intact, what decides is only who had read before the cancellation was committed. */
  lemma CancelledForGoodWhenCoupled(s: State)
    requires Inv(s) && s.slot == SlotCancelled && Coupled(s)
    ensures StaysCancelled(s) <==> forall t :: 0 <= t < |s.txs| ==> !SawConfirmed(s.txs[t])
  {
    hide Inv, StaysCancelled;
    CancelledForGoodIff(s);
    assert forall t :: 0 <= t < |s.txs| ==> (CanFree(s, s.txs[t]) <==> SawConfirmed(s.txs[t]));
  }
}
