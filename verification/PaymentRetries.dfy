/** What a caller gets back in any reached state: from a first request, and from the same
    request sent again under its key. */
module PaymentRetries {
  import opened Wrappers
  import opened SessionStateMachine
  import opened Idempotency
  import opened PaymentTables
  import opened PaymentProvider
  import opened PaymentSteps
  import opened PaymentRuns
  import opened PaymentTheorems

  // ------------------------------------------------------------ starting a session

  /** A pending payment of this amount for the provider's session, as yet without a refund, is the
      booking's new row; the booking is pending and otherwise, like every other row, as it was. */
  predicate IsOpened(db: Tables, db': Tables, req: SessionRequest, answer: SessionAnswer, amount: nat)
    requires req.pnr in db.bookings
  {
    && answer.SessionCreated?
    && db'.bookings == db.bookings[req.pnr := db.bookings[req.pnr].(payment := PaymentPending)]
    && |db'.payments| == |db.payments| + 1 && db'.payments[..|db.payments|] == db.payments
    && var p := db'.payments[|db.payments|];
    && p.pnr == req.pnr && p.key == req.Key() && p.sessionId == answer.sessionId && p.intent == answer.intent
    && p.amount == amount && p.status.Pending? && p.refunded.None? && p.refundStatus.None? && p.refundId.None?
  }

  /** The payment that a request returns is the one made under its own key, or the booking's
      open one; and if it was made now it is the booking's new row, at the booking's price. */
  lemma SessionRequestReturns(before: seq<Step>, req: SessionRequest, answer: SessionAnswer)
    ensures
      var l := Run(EMPTY, before);
      var (l', outcome) := CreateSession(l, req, answer);
      outcome.GotPayment? ==>
        && outcome.index < |l'.db.payments|
        && var p := l'.db.payments[outcome.index];
        && (p.key == req.Key() || (p.pnr == req.pnr && !IsTerminal(p.status)))
        && (outcome.index >= |l.db.payments| ==>
              req.pnr in l.db.bookings && IsOpened(l.db, l'.db, req, answer, l.db.bookings[req.pnr].totalPrice))
  {
    ReachedIsValid(before);
    var l := Run(EMPTY, before);
    if PlanCreate(l, req).CreateCall? {
      StartIsAdmissible(l, req);
      OpenedIsReturned(PlanCreate(l, req).local, req, PlanCreate(l, req).amount, answer);
    } else {
      StoppedIsReturned(l, req);
    }
  }

  lemma OpenedIsReturned(l: Local, req: SessionRequest, amount: nat, answer: SessionAnswer)
    requires req.pnr in l.db.bookings
    ensures
      var (l', outcome) := FinishCreate(l, req, amount, answer);
      outcome.GotPayment? ==>
        && outcome.index == |l.db.payments| < |l'.db.payments|
        && IsOpened(l.db, l'.db, req, answer, amount)
  {
  }

  lemma StoppedIsReturned(l: Local, req: SessionRequest)
    requires Valid(l) && PlanCreate(l, req).CreateStop?
    ensures
      var outcome := PlanCreate(l, req).outcome;
      && PlanCreate(l, req).local == l
      && (outcome.GotPayment? ==>
            && outcome.index < |l.db.payments|
            && var p := l.db.payments[outcome.index];
            && (p.key == req.Key() || (p.pnr == req.pnr && !IsTerminal(p.status))))
  {
    if req.Key() in l.entries { assert EntryValid(l.db.payments, req.Key(), l.entries[req.Key()]); }
  }

  predicate OpenToSession(db: Tables, req: SessionRequest) {
    && req.confirmed && req.pnr in db.bookings && !db.bookings[req.pnr].status.Cancelled?
    && (db.bookings[req.pnr].payment.Unpaid? || db.bookings[req.pnr].payment.PaymentFailed?)
  }

  /** The answer to a request under the key of payment `i`: the checks on the booking come
      first, then the booking's open payment, then the stored one. */
  function SessionReplay(db: Tables, req: SessionRequest, i: nat): Outcome {
    if !req.confirmed then Raised(ConfirmationRequired)
    else if req.pnr !in db.bookings then Raised(BookingNotFound)
    else
      var booking := db.bookings[req.pnr];
      if booking.status.Cancelled? then Raised(BookingNotPayable)
      else if booking.payment.Paid? || booking.payment.Refunded? then Raised(PaymentAlreadyCompleted)
      else if booking.payment.PaymentPending? then GotPayment(Open(db.payments, req.pnr).GetOr(i))
      else GotPayment(i)
  }

  /** In any valid state a request either changes nothing or asks the provider for a session,
      and it asks exactly for a booking open to one under a key the store has not seen. */
  lemma SessionIsSentExactlyWhen(l: Local, req: SessionRequest)
    requires Valid(l)
    ensures PlanCreate(l, req).CreateCall? <==> OpenToSession(l.db, req) && req.Key() !in l.entries
    ensures PlanCreate(l, req).CreateStop? ==> PlanCreate(l, req).local == l
  {
    if req.Key() in l.entries { assert EntryValid(l.db.payments, req.Key(), l.entries[req.Key()]); }
    StartIsAdmissible(l, req);
    if req.pnr in l.db.bookings && l.db.bookings[req.pnr].payment.PaymentPending? {
      PendingBookingHasOpenPayment(l.db, req.pnr);
    }
  }

  /** A request that passes the checks on its booking, in any state of the store, is decided by the
      entry of its key: refused while that is in progress or holds something other than a payment,
      answered with the payment, or sent when there is no entry or its payment no longer exists. */
  lemma StoredEntryDecides(l: Local, req: SessionRequest, answer: SessionAnswer)
    requires OpenToSession(l.db, req)
    ensures PlanCreate(l, req).CreateCall? <==>
            req.Key() in l.entries ==>
              && l.entries[req.Key()].Completed? && l.entries[req.Key()].result.PaymentRef?
              && l.entries[req.Key()].result.index >= |l.db.payments|
    ensures PlanCreate(l, req).CreateStop? ==>
      CreateSession(l, req, answer) ==
      (l, if l.entries[req.Key()].InProgress? then Raised(RequestInProgress)
          else if l.entries[req.Key()].result.PaymentRef? then GotPayment(l.entries[req.Key()].result.index)
          else Raised(MalformedStoredResult))
  {
  }

  lemma StoredSessionIsReplayed(l: Local, req: SessionRequest, i: nat, again: SessionAnswer)
    requires i < |l.db.payments| && req.Key() in l.entries && l.entries[req.Key()] == Completed(PaymentRef(i))
    ensures CreateSession(l, req, again) == (l, SessionReplay(l.db, req, i))
  {
  }

  /** A request that was answered with the payment under its own key, sent again after any
      further steps, changes nothing and is answered by `SessionReplay`. One that was answered
      with the open payment of another request is not remembered: sent again it changes
      nothing either, unless the booking has become open to a new session and the key is still
      new, which is exactly when it reaches the provider. */
  lemma RetriedSession(before: seq<Step>, req: SessionRequest, answer: SessionAnswer, after: seq<Step>,
                       again: SessionAnswer)
    requires CreateSession(Run(EMPTY, before), req, answer).1.GotPayment?
    ensures
      var (l', outcome) := CreateSession(Run(EMPTY, before), req, answer);
      var later := Run(l', after);
      && outcome.index < |l'.db.payments|
      && (l'.db.payments[outcome.index].key == req.Key() ==>
            CreateSession(later, req, again) == (later, SessionReplay(later.db, req, outcome.index)))
      && (PlanCreate(later, req).CreateCall? <==> OpenToSession(later.db, req) && req.Key() !in later.entries)
      && (!PlanCreate(later, req).CreateCall? ==> CreateSession(later, req, again).0 == later)
  {
    SessionRequestReturns(before, req, answer);
    ReachedIsValid(before);
    StartSessionKeepsValid(Run(EMPTY, before), req, answer);
    var (l', outcome) := CreateSession(Run(EMPTY, before), req, answer);
    RunKeepsValid(l', after);
    SessionIsSentExactlyWhen(Run(l', after), req);
    if l'.db.payments[outcome.index].key == req.Key() {
      RunKeepsEntries(l', after);
      assert |l'.db.payments| <= |Run(l', after).db.payments|;
      StoredSessionIsReplayed(Run(l', after), req, outcome.index, again);
    }
  }

  const OTHER_REQUEST := SessionRequest(true, "P", "b")
  const EXPIRY := Deliver(WebhookEvent("x", SessionExpired, Some(0), None, None))

  const EXPIRED_STATE := Local(
    Tables(map["P" := Booking(Confirmed, Unpaid, 100)],
           [Payment("P", SessionKey("a"), 0, None, Expired, 100, None, None, None)]),
    OPEN_STATE.entries[EventKey("x") := Completed(EventOutcome)])

  lemma ExpiredStateIsNext()
    ensures Next(OPEN_STATE, EXPIRY) == EXPIRED_STATE
  {
    assert BySession(OPEN_STATE.db.payments, 0) == Some(0);
  }

  lemma ExpiredBookingOpensAnother()
    ensures
      var (l', outcome) := CreateSession(EXPIRED_STATE, OTHER_REQUEST, SessionCreated(1, None));
      outcome == GotPayment(1) && |l'.db.payments| == 2 && l'.db.payments[1].key == OTHER_REQUEST.Key()
  {
  }

  /** A run in which a request is not remembered: after `OPEN_BOOKING`, a request under another
      key is answered with payment 0; once that has expired, the same request opens payment 1. */
  lemma ForgottenRequestOpensAnother(answer: SessionAnswer)
    ensures
      var l := Run(EMPTY, OPEN_BOOKING);
      && CreateSession(l, OTHER_REQUEST, answer) == (l, GotPayment(0))
      && CreateSession(Next(l, EXPIRY), OTHER_REQUEST, SessionCreated(1, None)).1 == GotPayment(1)
      && |CreateSession(Next(l, EXPIRY), OTHER_REQUEST, SessionCreated(1, None)).0.db.payments| == 2
  {
    OpenStateIsReached();
    assert Open(OPEN_STATE.db.payments, "P") == Some(0);
    ExpiredStateIsNext();
    ExpiredBookingOpensAnother();
  }

  // ------------------------------------------------------------ webhooks

  /** An event delivered again, after any steps, is ignored: whatever its first delivery did. */
  lemma RedeliveryIsIgnored(before: seq<Step>, event: WebhookEvent, after: seq<Step>, again: WebhookEvent)
    requires again.id == event.id
    ensures
      var later := Run(Webhook(Run(EMPTY, before), event).0, after);
      Webhook(later, again) == (later, DuplicateEvent)
  {
    ReachedIsValid(before);
    DeliverKeepsValid(Run(EMPTY, before), event);
    var l' := Webhook(Run(EMPTY, before), event).0;
    DeliveredIsSeen(Run(EMPTY, before), event);
    RunKeepsEntries(l', after);
    SeenIsIgnored(Run(l', after), again);
  }

  lemma DeliveredIsSeen(l: Local, event: WebhookEvent)
    requires ForeignKeys(l.db)
    ensures EventKey(event.id) in Webhook(l, event).0.entries
  {
  }

  lemma SeenIsIgnored(l: Local, event: WebhookEvent)
    requires ForeignKeys(l.db) && EventKey(event.id) in l.entries
    ensures Webhook(l, event) == (l, DuplicateEvent)
  {
  }

  // ------------------------------------------------------------ refunds

  function LeftOf(p: Payment): int {
    p.amount - RefundedOf(p)
  }

  /** The checks on the booking and on what is left come before the stored result is looked at. */
  predicate StillRefundable(db: Tables, req: RefundRequest) {
    && !IsRefunded(db, req.pnr)
    && match Latest(db.payments, req.pnr)
       case None => false
       case Some(i) => 0 < req.amount.GetOr(LeftOf(db.payments[i])) <= LeftOf(db.payments[i])
  }

  /** Sending an answered refund again, after any further steps, never moves money. The stored
      payment is returned exactly when what is then left would still cover the request, and
      otherwise the retry is rejected although the first call succeeded. */
  lemma RetriedRefundMovesNoMoney(before: seq<Step>, req: RefundRequest, reply: RefundReply, after: seq<Step>,
                                  again: RefundReply)
    requires RefundStep(Run(EMPTY, before), req, reply).1.GotPayment?
    ensures
      var (l', outcome) := RefundStep(Run(EMPTY, before), req, reply);
      var later := Run(l', after);
      && RefundStep(later, req, again).0 == later
      && (RefundStep(later, req, again).1 == outcome <==> StillRefundable(later.db, req))
      && (StillRefundable(later.db, req) || RefundStep(later, req, again).1 ==
            Raised(if IsRefunded(later.db, req.pnr) then PaymentAlreadyRefunded else InvalidRefundAmount))
  {
    ReachedIsValid(before);
    AnsweredRefundIsStored(Run(EMPTY, before), req, reply);
    RefundStepKeepsValid(Run(EMPTY, before), req, reply);
    var (l', outcome) := RefundStep(Run(EMPTY, before), req, reply);
    AnsweredStays(l', req, outcome.index, after);
    StoredRefundIsReplayed(Run(l', after), req, outcome.index, again);
  }

  lemma AnsweredStays(l: Local, req: RefundRequest, i: nat, after: seq<Step>)
    requires Valid(l) && IsAnswered(l, req, i)
    ensures IsAnswered(Run(l, after), req, i)
  {
    RunKeepsEntries(l, after);
    SucceededStays(l, after, Latest(l.db.payments, req.pnr).value);
    assert |l.db.payments| <= |Run(l, after).db.payments| by { RunKeepsValid(l, after); }
  }

  const REFUNDED_STATE := Local(
    Tables(map["P" := Booking(Confirmed, Refunded, 100)],
           [Payment("P", SessionKey("a"), 0, Some(7), Succeeded, 100, Some(100), Some(RefundSucceeded),
                    Some(RefundKey("b")))]),
    PAID_STATE.entries[RefundKey("b") := Completed(PaymentRef(0))])

  lemma RefundedStateIsNext()
    ensures RefundStep(PAID_STATE, RefundRequest(true, "P", None, "b"), RefundReplied(RefundKey("b"), RefundSucceeded))
            == (REFUNDED_STATE, GotPayment(0))
  {
    assert Latest(PAID_STATE.db.payments, "P") == Some(0);
    var req := RefundRequest(true, "P", None, "b");
    assert PlanRefund(PAID_STATE, req) ==
        RefundCall(PAID_STATE.(entries := PAID_STATE.entries[RefundKey("b") := InProgress]), 0, 7, 100);
    assert ApplyRefund(PAID_STATE.db, 0, Some(RefundResult(RefundKey("b"), RefundSucceeded, 100)), 100, true) ==
        REFUNDED_STATE.db;
    assert PAID_STATE.entries[RefundKey("b") := InProgress][RefundKey("b") := Completed(PaymentRef(0))]
        == PAID_STATE.entries[RefundKey("b") := Completed(PaymentRef(0))];
  }

  /** A run in which the retry is rejected: after `PAID_BOOKING`, a full refund the provider
      answers SUCCEEDED, sent again. */
  lemma RetriedFullRefundIsRejected(again: RefundReply)
    ensures
      var req := RefundRequest(true, "P", None, "b");
      var (l', outcome) := RefundStep(Run(EMPTY, PAID_BOOKING), req, RefundReplied(RefundKey("b"), RefundSucceeded));
      && outcome == GotPayment(0) && RefundedAt(l'.db, 0) == 100
      && RefundStep(l', req, again) == (l', Raised(PaymentAlreadyRefunded))
  {
    PaidStateIsReached();
    RefundedStateIsNext();
  }

  /** The state an answered refund leaves: its key names its payment, the booking's latest. */
  predicate IsAnswered(l: Local, req: RefundRequest, i: nat) {
    && req.confirmed && req.pnr in l.db.bookings && i < |l.db.payments|
    && req.Key() in l.entries && l.entries[req.Key()] == Completed(PaymentRef(i))
    && match Latest(l.db.payments, req.pnr)
       case None => false
       case Some(j) => l.db.payments[j].status.Succeeded? && l.db.payments[j].intent.Some?
  }

  lemma AnsweredRefundIsStored(l: Local, req: RefundRequest, reply: RefundReply)
    requires Valid(l) && RefundStep(l, req, reply).1.GotPayment?
    ensures IsAnswered(RefundStep(l, req, reply).0, req, RefundStep(l, req, reply).1.index)
  {
    if PlanRefund(l, req).RefundCall? {
      RefundIsAdmissible(l, req);
      var plan := PlanRefund(l, req);
      FinishedRefundIsStored(plan.local, req, plan.index, plan.amount, reply);
    } else {
      ReplayedRefundIsStored(l, req);
    }
  }

  lemma ReplayedRefundIsStored(l: Local, req: RefundRequest)
    requires EntriesValid(l) && PlanRefund(l, req).RefundStop? && PlanRefund(l, req).outcome.GotPayment?
    ensures PlanRefund(l, req).local == l && IsAnswered(l, req, PlanRefund(l, req).outcome.index)
  {
    assert EntryValid(l.db.payments, req.Key(), l.entries[req.Key()]);
  }

  lemma FinishedRefundIsStored(l: Local, req: RefundRequest, i: nat, amount: int, reply: RefundReply)
    requires ForeignKeys(l.db) && req.confirmed && req.pnr in l.db.bookings && Latest(l.db.payments, req.pnr) == Some(i)
    requires l.db.payments[i].status.Succeeded? && l.db.payments[i].intent.Some?
    requires FinishRefund(l, req, i, amount, Echo(reply, amount)).1.GotPayment?
    ensures IsAnswered(FinishRefund(l, req, i, amount, Echo(reply, amount)).0, req, i)
    ensures FinishRefund(l, req, i, amount, Echo(reply, amount)).1 == GotPayment(i)
  {
    var l' := FinishRefund(l, req, i, amount, Echo(reply, amount)).0;
    LatestAfterUpdate(l.db.payments, i, l'.db.payments[i], req.pnr);
  }

  lemma StoredRefundIsReplayed(l: Local, req: RefundRequest, i: nat, again: RefundReply)
    requires ForeignKeys(l.db) && IsAnswered(l, req, i)
    ensures RefundStep(l, req, again).0 == l
    ensures RefundStep(l, req, again).1 ==
      if StillRefundable(l.db, req) then GotPayment(i)
      else Raised(if IsRefunded(l.db, req.pnr) then PaymentAlreadyRefunded else InvalidRefundAmount)
  {
  }
}
