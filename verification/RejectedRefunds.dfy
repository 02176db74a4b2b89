/** What follows from counting a refund that the provider answered FAILED or CANCELED. */
module RejectedRefunds {
  import opened Wrappers
  import opened SessionStateMachine
  import opened Idempotency
  import opened PaymentTables
  import opened PaymentProvider
  import opened PaymentSteps
  import opened PaymentRuns
  import opened PaymentTheorems
  import opened PaymentRetries

  /** A captured payment of which, by the local ledger, nothing is left to refund. */
  predicate NothingLeft(db: Tables, pnr: Pnr) {
    pnr in db.bookings &&
    match Latest(db.payments, pnr)
    case None => false
    case Some(i) =>
      var p := db.payments[i];
      p.status.Succeeded? && p.intent.Some? && LeftOf(p) == 0
  }

  lemma NothingLeftStays(l: Local, after: seq<Step>, pnr: Pnr)
    requires Valid(l) && NothingLeft(l.db, pnr)
    ensures NothingLeft(Run(l, after).db, pnr) && Latest(Run(l, after).db.payments, pnr) == Latest(l.db.payments, pnr)
  {
    SucceededStays(l, after, Latest(l.db.payments, pnr).value);
  }

  lemma NothingLeftRefusesRefunds(l: Local, req: RefundRequest, reply: RefundReply)
    requires ForeignKeys(l.db) && NothingLeft(l.db, req.pnr) && req.confirmed
    ensures RefundStep(l, req, reply) ==
      (l, Raised(if IsRefunded(l.db, req.pnr) then PaymentAlreadyRefunded else InvalidRefundAmount))
  {
  }

  lemma FinishedRejection(l: Local, req: RefundRequest, reply: RefundReply)
    requires RowsValid(l.db) && PlanRefund(l, req).RefundCall? && Rejects(reply)
    requires PlanRefund(l, req).amount == LeftOf(l.db.payments[Latest(l.db.payments, req.pnr).value])
    ensures RefundStep(l, req, reply).1 == Raised(RefundNotCompleted(reply.status))
    ensures NothingLeft(RefundStep(l, req, reply).0.db, req.pnr) && !IsRefunded(RefundStep(l, req, reply).0.db, req.pnr)
  {
    RefundIsAdmissible(l, req);
    var i, l' := PlanRefund(l, req).index, RefundStep(l, req, reply).0;
    LatestAfterUpdate(l.db.payments, i, l'.db.payments[i], req.pnr);
  }

  /** After a refund of everything that is left comes back FAILED or CANCELED, no confirmed
      refund of that booking ever gets through again, although nothing was refunded. */
  lemma RejectedFullRefundBlocksRefunds(before: seq<Step>, req: RefundRequest, reply: RefundReply, after: seq<Step>,
                                        next: RefundRequest, answer: RefundReply)
    requires
      var l := Run(EMPTY, before);
      && PlanRefund(l, req).RefundCall? && Rejects(reply) && next.confirmed && next.pnr == req.pnr
      && PlanRefund(l, req).amount == LeftOf(l.db.payments[Latest(l.db.payments, req.pnr).value])
    ensures
      var (l', outcome) := RefundStep(Run(EMPTY, before), req, reply);
      var later := Run(l', after);
      && outcome == Raised(RefundNotCompleted(reply.status))
      && RefundStep(later, next, answer) ==
         (later, Raised(if IsRefunded(later.db, req.pnr) then PaymentAlreadyRefunded else InvalidRefundAmount))
  {
    ReachedIsValid(before);
    var l := Run(EMPTY, before);
    FinishedRejection(l, req, reply);
    RefundStepKeepsValid(l, req, reply);
    NothingLeftStays(RefundStep(l, req, reply).0, after, req.pnr);
    NothingLeftRefusesRefunds(Run(RefundStep(l, req, reply).0, after), next, answer);
  }

  /** Cancelling such a booking asks the provider for nothing, whatever the airline releases,
      and marks it REFUNDED. */
  lemma NothingLeftCancelsForNothing(l: Local, req: CancelRequest, refundable: int, reply: RefundReply)
    requires RowsValid(l.db) && NothingLeft(l.db, req.pnr) && l.db.bookings[req.pnr].payment.Paid?
    requires req.confirmed && !l.db.bookings[req.pnr].status.Cancelled? && req.Key() !in l.entries
    ensures
      var l' := CancelStep(l, req, AirlineDone(refundable), reply).0;
      && Asked(l, CancelBooking(req, AirlineDone(refundable), reply)).None?
      && IsRefunded(l'.db, req.pnr) && l'.db.bookings[req.pnr].status.Cancelled?
      && forall i :: RefundedAt(l'.db, i) == RefundedAt(l.db, i)
  {
    CancelStepClosesOut(l, req, AirlineDone(refundable), reply);
    forall i ensures RefundedAt(CancelStep(l, req, AirlineDone(refundable), reply).0.db, i) == RefundedAt(l.db, i) {
      CancelCredits(l, req, AirlineDone(refundable), reply, i);
    }
  }

  /** A corollary of `LedgersAgreeUnlessRejected`, for the payment behind a REFUNDED booking: the
      provider has taken on the amount it records exactly when none of its refunds was rejected,
      and otherwise less. */
  lemma RefundedIsBackedExactlyWhen(before: seq<Step>, pnr: Pnr)
    requires IsRefunded(Run(EMPTY, before).db, pnr)
    ensures
      var db := Run(EMPTY, before).db;
      && Latest(db.payments, pnr).Some?
      && var i := Latest(db.payments, pnr).value;
      && TakenOn(EMPTY, before, i) <= RefundedOf(db.payments[i])
      && (TakenOn(EMPTY, before, i) == RefundedOf(db.payments[i]) <==> !SomeRejected(EMPTY, before, i))
  {
    ReachedIsValid(before);
    assert Mirrors(Run(EMPTY, before).db, pnr);
    LedgersAgreeUnlessRejected(before, Latest(Run(EMPTY, before).db.payments, pnr).value);
  }

  const CANCELLATION := CancelBooking(CancelRequest(true, "P", "c"), AirlineDone(90), RefundRefused)

  lemma FailedStateIsReached()
    ensures Next(Run(EMPTY, PAID_BOOKING), FAILED_REFUND) == FAILED_STATE
    ensures Asked(Run(EMPTY, PAID_BOOKING), FAILED_REFUND) ==
        Some((0, 100, RefundReplied(RefundKey("b"), RefundFailed)))
  {
    PaidStateIsReached();
    FailedStateIsNext();
  }

  lemma FailedStateIsValid()
    ensures Valid(FAILED_STATE) && NothingLeft(FAILED_STATE.db, "P")
  {
    RunKeepsValid(EMPTY, PAID_BOOKING);
    NextKeepsValid(Run(EMPTY, PAID_BOOKING), FAILED_REFUND);
    FailedStateIsReached();
    assert Latest(FAILED_STATE.db.payments, "P") == Some(0);
  }

  /** A run in which a booking ends REFUNDED with 100 recorded and nothing refunded: after
      `PAID_BOOKING`, a full refund answered FAILED and a cancellation. */
  lemma RefundedForNothing()
    ensures
      var l := Next(Run(EMPTY, PAID_BOOKING), FAILED_REFUND);
      && Asked(Run(EMPTY, PAID_BOOKING), FAILED_REFUND) == Some((0, 100, RefundReplied(RefundKey("b"), RefundFailed)))
      && Asked(l, CANCELLATION).None?
      && IsRefunded(Next(l, CANCELLATION).db, "P") && RefundedAt(Next(l, CANCELLATION).db, 0) == 100
  {
    FailedStateIsReached();
    FailedStateIsValid();
    NothingLeftCancelsForNothing(FAILED_STATE, CancelRequest(true, "P", "c"), 90, RefundRefused);
  }
}
