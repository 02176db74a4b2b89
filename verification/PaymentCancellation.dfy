/** What the customer's payment is credited when the airline says how much is refundable. */
module PaymentCancellation {
  import opened Wrappers
  import opened SessionStateMachine
  import opened Idempotency
  import opened PaymentTables
  import opened PaymentProvider
  import opened PaymentSteps
  import opened PaymentRuns
  import opened PaymentTheorems

  /** A confirmed request, under a key not used before, for a booking that is paid and not cancelled. */
  predicate CancelsPaidBooking(l: Local, req: CancelRequest) {
    && req.confirmed && req.pnr in l.db.bookings && !l.db.bookings[req.pnr].status.Cancelled?
    && req.Key() !in l.entries && HasCapturedPayment(l.db, req.pnr)
  }

  function Capped(refundable: int, left: int): int {
    if refundable <= 0 then 0 else if refundable <= left then refundable else left
  }

  /** The booking's latest payment is credited an amount and the booking ends cancelled and
      refunded; no other payment and no other booking changes. */
  ghost predicate ClosedOut(db: Tables, db': Tables, pnr: Pnr, credited: int) {
    var latest := Latest(db.payments, pnr);
    && latest.Some? && pnr in db.bookings && |db'.payments| == |db.payments|
    && db'.payments[latest.value].amount == db.payments[latest.value].amount
    && RefundedOf(db'.payments[latest.value]) == RefundedOf(db.payments[latest.value]) + credited
    && db'.bookings == db.bookings[pnr := db.bookings[pnr].(status := Cancelled, payment := Refunded)]
    && (forall j | 0 <= j < |db.payments| && j != latest.value :: db'.payments[j] == db.payments[j])
  }

  function LeftOfLatest(db: Tables, pnr: Pnr): int {
    match Latest(db.payments, pnr)
    case None => 0
    case Some(i) => db.payments[i].amount - RefundedOf(db.payments[i])
  }

  /** With a provider that takes the refund on, a paid booking's payment is credited the
      airline's amount: never less than nothing and never more than is left of it. */
  lemma CancellationCreditsTheCappedAmount(before: seq<Step>, req: CancelRequest, refundable: int, refundId: Key)
    requires CancelsPaidBooking(Run(EMPTY, before), req)
    ensures
      var l := Run(EMPTY, before);
      var l' := CancelStep(l, req, AirlineDone(refundable), RefundReplied(refundId, RefundSucceeded)).0;
      ClosedOut(l.db, l'.db, req.pnr, Capped(refundable, LeftOfLatest(l.db, req.pnr)))
  {
    ReachedIsValid(before);
    CancellationCredits(Run(EMPTY, before), req, refundable, refundId);
  }

  lemma CancellationCredits(l: Local, req: CancelRequest, refundable: int, refundId: Key)
    requires RowsValid(l.db) && CancelsPaidBooking(l, req)
    ensures
      var l' := CancelStep(l, req, AirlineDone(refundable), RefundReplied(refundId, RefundSucceeded)).0;
      ClosedOut(l.db, l'.db, req.pnr, Capped(refundable, LeftOfLatest(l.db, req.pnr)))
  {
    var reply := RefundReplied(refundId, RefundSucceeded);
    CancelStepClosesOut(l, req, AirlineDone(refundable), reply);
    MarkedCloseOutCredits(l.db, Begin(l.entries, req.Key()).0, req.pnr, refundable, reply);
  }

  lemma MarkedCloseOutCredits(db: Tables, entries: Entries, pnr: Pnr, refundable: int, reply: RefundReply)
    requires RowsValid(db) && HasCapturedPayment(db, pnr) && Succeeds(reply)
    ensures ClosedOut(db, CloseOutTables(Local(MarkCancelled(db, pnr), entries), pnr, refundable, reply), pnr,
                      Capped(refundable, LeftOfLatest(db, pnr)))
  {
    assert Mirrors(db, pnr);
    assert RefundBounded(db.payments[Latest(db.payments, pnr).value]);
    var b := db.bookings[pnr];
    assert db.bookings[pnr := b.(status := Cancelled)][pnr := b.(status := Cancelled, payment := Refunded)]
        == db.bookings[pnr := b.(status := Cancelled, payment := Refunded)];
  }
}
