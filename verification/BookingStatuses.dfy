/** A booking's status over whole runs, and what cancelling and modifying it answer. */
module BookingStatuses {
  import opened Wrappers
  import opened SessionStateMachine
  import opened Idempotency
  import opened PaymentTables
  import opened PaymentProvider
  import opened PaymentSteps
  import opened PaymentRuns
  import opened PaymentTheorems
  import opened RememberedKeys

  // ------------------------------------------------------------ what a step does to a status

  /** The airline changes a booking that is not cancelled. */
  predicate CarriesOutChange(l: Local, req: ModifyRequest, change: AirlineAnswer<nat>) {
    && req.confirmed && req.pnr in l.db.bookings && !l.db.bookings[req.pnr].status.Cancelled?
    && (req.newFlight || req.newContact) && change.AirlineDone?
  }

  predicate CancelsBooking(l: Local, step: Step, pnr: Pnr) {
    step.CancelBooking? && step.cancel.pnr == pnr && CarriesOutCancel(l, step.cancel, step.airline)
  }

  predicate MovesBooking(l: Local, step: Step, pnr: Pnr) {
    && step.ModifyBooking? && step.changes.pnr == pnr && step.changes.newFlight
    && CarriesOutChange(l, step.changes, step.change)
  }

  function StatusOf(db: Tables, pnr: Pnr): Option<BookingStatus> {
    if pnr in db.bookings then Some(db.bookings[pnr].status) else None
  }

  /** A cancellation that is carried out cancels its booking, a change of flight marks its own as
      modified, a new booking is confirmed; no other status changes. */
  ghost predicate StatusesFollow(l: Local, step: Step, l': Local) {
    forall pnr ::
      StatusOf(l'.db, pnr) ==
        if CancelsBooking(l, step, pnr) then Some(Cancelled)
        else if MovesBooking(l, step, pnr) then Some(Modified)
        else if step.NewBooking? && step.pnr == pnr && pnr !in l.db.bookings then Some(Confirmed)
        else StatusOf(l.db, pnr)
  }

  lemma CancelFollows(l: Local, req: CancelRequest, airline: AirlineAnswer<int>, reply: RefundReply)
    requires Valid(l)
    ensures StatusesFollow(l, CancelBooking(req, airline, reply), CancelStep(l, req, airline, reply).0)
  {
    CancelIsCarriedOutExactlyWhen(l, req, airline);
    if CarriesOutCancel(l, req, airline) { CancelStepClosesOut(l, req, airline, reply); }
  }

  lemma RefundKeepsStatuses(l: Local, req: RefundRequest, reply: RefundReply)
    requires ForeignKeys(l.db)
    ensures StatusesFollow(l, StaffRefund(req, reply), RefundStep(l, req, reply).0)
  {
  }

  lemma DeliverKeepsStatuses(l: Local, event: WebhookEvent)
    requires ForeignKeys(l.db)
    ensures StatusesFollow(l, Deliver(event), Webhook(l, event).0)
  {
  }

  lemma StartKeepsStatuses(l: Local, req: SessionRequest, answer: SessionAnswer)
    requires ForeignKeys(l.db)
    ensures StatusesFollow(l, StartSession(req, answer), CreateSession(l, req, answer).0)
  {
  }

  lemma NextFollows(l: Local, step: Step)
    requires Valid(l)
    ensures StatusesFollow(l, step, Next(l, step))
  {
    match step
    case CancelBooking(req, airline, reply) => CancelFollows(l, req, airline, reply);
    case StaffRefund(req, reply) => RefundKeepsStatuses(l, req, reply);
    case Deliver(event) => DeliverKeepsStatuses(l, event);
    case StartSession(req, answer) => StartKeepsStatuses(l, req, answer);
    case _ =>
  }

  // ------------------------------------------------------------ statuses over runs

  ghost predicate WasCancelled(steps: seq<Step>, pnr: Pnr) {
    exists k | 0 <= k < |steps| :: CancelsBooking(Run(EMPTY, steps[..k]), steps[k], pnr)
  }

  ghost predicate WasMoved(steps: seq<Step>, pnr: Pnr) {
    exists k | 0 <= k < |steps| :: MovesBooking(Run(EMPTY, steps[..k]), steps[k], pnr)
  }

  lemma WasCancelledOneMore(steps: seq<Step>, pnr: Pnr)
    requires steps != []
    ensures
      var init, last := steps[..|steps| - 1], steps[|steps| - 1];
      WasCancelled(steps, pnr) <==> WasCancelled(init, pnr) || CancelsBooking(Run(EMPTY, init), last, pnr)
  {
    var init, last := steps[..|steps| - 1], steps[|steps| - 1];
    assert forall k | 0 <= k < |init| :: init[..k] == steps[..k] && init[k] == steps[k];
    if CancelsBooking(Run(EMPTY, init), last, pnr) {
      assert CancelsBooking(Run(EMPTY, steps[..|steps| - 1]), steps[|steps| - 1], pnr);
    }
    if k :| 0 <= k < |init| && CancelsBooking(Run(EMPTY, init[..k]), init[k], pnr) {
      assert CancelsBooking(Run(EMPTY, steps[..k]), steps[k], pnr);
    }
  }

  lemma WasMovedOneMore(steps: seq<Step>, pnr: Pnr)
    requires steps != []
    ensures
      var init, last := steps[..|steps| - 1], steps[|steps| - 1];
      WasMoved(steps, pnr) <==> WasMoved(init, pnr) || MovesBooking(Run(EMPTY, init), last, pnr)
  {
    var init, last := steps[..|steps| - 1], steps[|steps| - 1];
    assert forall k | 0 <= k < |init| :: init[..k] == steps[..k] && init[k] == steps[k];
    if MovesBooking(Run(EMPTY, init), last, pnr) {
      assert MovesBooking(Run(EMPTY, steps[..|steps| - 1]), steps[|steps| - 1], pnr);
    }
    if k :| 0 <= k < |init| && MovesBooking(Run(EMPTY, init[..k]), init[k], pnr) {
      assert MovesBooking(Run(EMPTY, steps[..k]), steps[k], pnr);
    }
  }

  /** After every run a booking is CANCELLED exactly when some cancellation of it was carried out,
      MODIFIED exactly when none was and some change of its flight was, and otherwise CONFIRMED. */
  lemma {:induction false} StatusIsItsHistory(steps: seq<Step>, pnr: Pnr)
    ensures
      match StatusOf(Run(EMPTY, steps).db, pnr)
      case None => !WasCancelled(steps, pnr) && !WasMoved(steps, pnr)
      case Some(Cancelled) => WasCancelled(steps, pnr)
      case Some(Modified) => !WasCancelled(steps, pnr) && WasMoved(steps, pnr)
      case Some(Confirmed) => !WasCancelled(steps, pnr) && !WasMoved(steps, pnr)
    decreases |steps|
  {
    if steps != [] {
      var init := steps[..|steps| - 1];
      StatusIsItsHistory(init, pnr);
      ReachedIsValid(init);
      RunOneMore(EMPTY, steps);
      NextFollows(Run(EMPTY, init), steps[|steps| - 1]);
      WasCancelledOneMore(steps, pnr);
      WasMovedOneMore(steps, pnr);
    }
  }

  // ------------------------------------------------------------ what the calls answer

  /** A cancellation is answered "already cancelled" exactly when the booking was cancelled before
      the call. It is answered "cancelled" as soon as its key is known, although the booking is then
      cancelled only if it was its own cancellation that made the key known. */
  lemma CancellationIsAnswered(before: seq<Step>, req: CancelRequest, airline: AirlineAnswer<int>, reply: RefundReply)
    ensures
      var l := Run(EMPTY, before);
      var (l', outcome) := CancelStep(l, req, airline, reply);
      var known := req.confirmed && req.pnr in l.db.bookings;
      && (outcome == GotBooking(true) <==> known && WasCancelled(before, req.pnr))
      && (outcome == GotBooking(false) <==>
            known && !WasCancelled(before, req.pnr) && (CarriedOut(before, req.Key()) || airline.AirlineDone?))
      && (outcome.GotBooking? ==>
            (StatusOf(l'.db, req.pnr) == Some(Cancelled) <==>
               WasCancelled(before, req.pnr) || !CarriedOut(before, req.Key())))
      && (outcome.GotBooking? || outcome.Raised?)
  {
    ReachedIsValid(before);
    var l := Run(EMPTY, before);
    StatusIsItsHistory(before, req.pnr);
    KnownExactlyWhen(before, req.Key());
    CancelIsCarriedOutExactlyWhen(l, req, airline);
    CancelFollows(l, req, airline, reply);
    if req.Key() in l.entries { assert EntryValid(l.db.payments, req.Key(), l.entries[req.Key()]); }
  }

  /** In any state of the store, a cancellation that passes the checks on its booking is stopped by
      a completed entry of its key only: a key in progress does not hold it up. */
  lemma InProgressDoesNotStopCancel(l: Local, req: CancelRequest, airline: AirlineAnswer<int>)
    requires req.confirmed && req.pnr in l.db.bookings && !l.db.bookings[req.pnr].status.Cancelled?
    ensures
      var plan := PlanCancel(l, req, airline);
      var completed := req.Key() in l.entries && l.entries[req.Key()].Completed?;
      && (!plan.CancelStop? <==> !completed && airline.AirlineDone?)
      && (completed ==> plan == CancelStop(l, GotBooking(false)))
      && (!completed && airline.AirlineRaised? ==>
            plan == CancelStop(l.(entries := l.entries - {req.Key()}), Raised(ProviderFailed)))
  {
    assert l.entries[req.Key() := InProgress] - {req.Key()} == l.entries - {req.Key()};
  }

  const CANCELLED_ONE: seq<Step> := [
    NewBooking("P", 100),
    NewBooking("Q", 100),
    CancelBooking(CancelRequest(true, "P", "c"), AirlineDone(0), RefundRefused)]

  const CANCELLED_ONE_STATE := Local(
    Tables(map["P" := Booking(Cancelled, Unpaid, 100), "Q" := Booking(Confirmed, Unpaid, 100)], []),
    map[CancelKey("c") := Completed(BookingRef("P"))])

  lemma CancelledOneIsReached()
    ensures Run(EMPTY, CANCELLED_ONE) == CANCELLED_ONE_STATE
  {
    var l1 := Next(EMPTY, CANCELLED_ONE[0]);
    var l2 := Next(l1, CANCELLED_ONE[1]);
    assert l2 == Local(Tables(map["P" := Booking(Confirmed, Unpaid, 100), "Q" := Booking(Confirmed, Unpaid, 100)], []),
                       map[]);
    assert Next(l2, CANCELLED_ONE[2]) == CANCELLED_ONE_STATE;
    assert Run(l2, CANCELLED_ONE[1..][1..]) == CANCELLED_ONE_STATE;
    assert Run(l1, CANCELLED_ONE[1..]) == CANCELLED_ONE_STATE;
  }

  /** A run in which that happens: a key that has cancelled one booking is used for another, which
      is reported as cancelled and is not. */
  lemma OneKeyForTwoCancellations(airline: AirlineAnswer<int>, reply: RefundReply)
    ensures
      var l := Run(EMPTY, CANCELLED_ONE);
      && CancelStep(l, CancelRequest(true, "Q", "c"), airline, reply) == (l, GotBooking(false))
      && StatusOf(l.db, "Q") == Some(Confirmed)
  {
    CancelledOneIsReached();
  }

  /** A modification succeeds exactly when it is carried out; it then changes its booking's price
      to the airline's total and, with the flight, its status, and nothing else. */
  lemma ModificationIsAnswered(l: Local, req: ModifyRequest, change: AirlineAnswer<nat>)
    ensures
      var (l', outcome) := Modify(l, req, change);
      && (outcome == GotBooking(false) <==> CarriesOutChange(l, req, change))
      && (outcome.GotBooking? ==> outcome == GotBooking(false))
      && l'.entries == l.entries && l'.db.payments == l.db.payments && l'.db.bookings.Keys == l.db.bookings.Keys
      && (forall pnr | pnr in l.db.bookings && !(pnr == req.pnr && CarriesOutChange(l, req, change)) ::
            l'.db.bookings[pnr] == l.db.bookings[pnr])
      && (CarriesOutChange(l, req, change) ==>
            && l'.db.bookings[req.pnr].totalPrice == change.value
            && l'.db.bookings[req.pnr].payment == l.db.bookings[req.pnr].payment)
  {
  }
}
