/** A cancelled booking can still be paid: cancelling it does not close an open session. */
module CancelledBookings {
  import opened Wrappers
  import opened SessionStateMachine
  import opened Idempotency
  import opened PaymentTables
  import opened PaymentProvider
  import opened PaymentSteps
  import opened PaymentRuns
  import opened PaymentTheorems
  import W = WebhookConfluence

  predicate IsCancelled(db: Tables, pnr: Pnr) {
    pnr in db.bookings && db.bookings[pnr].status.Cancelled?
  }

  predicate IsPaid(db: Tables, pnr: Pnr) {
    pnr in db.bookings && db.bookings[pnr].payment.Paid?
  }

  // ------------------------------------------------------------ when a run refunds a booking

  /** Some step of the run closes the booking's payment out. */
  ghost predicate ClosedOutDuring(l: Local, steps: seq<Step>, pnr: Pnr)
    requires ForeignKeys(l.db)
    decreases |steps|
  {
    steps != [] && (ClosesOut(l, steps[0], pnr) || ClosedOutDuring(Next(l, steps[0]), steps[1..], pnr))
  }

  lemma {:induction false} RefundedDuringExactlyWhen(l: Local, steps: seq<Step>, pnr: Pnr)
    requires Valid(l) && !IsRefunded(l.db, pnr)
    ensures IsRefunded(Run(l, steps).db, pnr) <==> ClosedOutDuring(l, steps, pnr)
    decreases |steps|
  {
    if steps != [] {
      var l' := Next(l, steps[0]);
      StepRefundsExactlyWhen(l, steps[0], pnr);
      NextKeepsValid(l, steps[0]);
      if IsRefunded(l'.db, pnr) {
        RunKeepsValid(l', steps[1..]);
      } else {
        RefundedDuringExactlyWhen(l', steps[1..], pnr);
      }
    }
  }

  lemma RefundedAfterExactlyWhen(l: Local, steps: seq<Step>, pnr: Pnr)
    requires Valid(l)
    ensures !IsRefunded(Run(l, steps).db, pnr) <==> !IsRefunded(l.db, pnr) && !ClosedOutDuring(l, steps, pnr)
  {
    if IsRefunded(l.db, pnr) { RunKeepsValid(l, steps); } else { RefundedDuringExactlyWhen(l, steps, pnr); }
  }

  // ------------------------------------------------------------ a cancelled booking gets no new session

  lemma RefundKeepsCancelled(l: Local, req: RefundRequest, reply: RefundReply, pnr: Pnr)
    requires RowsValid(l.db) && IsCancelled(l.db, pnr)
    ensures IsCancelled(RefundStep(l, req, reply).0.db, pnr)
    ensures Latest(RefundStep(l, req, reply).0.db.payments, pnr) == Latest(l.db.payments, pnr)
  {
    RefundIsAdmissible(l, req);
    if PlanRefund(l, req).RefundCall? {
      var plan := PlanRefund(l, req);
      FinishRefundKeepsCancelled(plan.local, req, plan.index, plan.amount, reply, pnr);
    }
  }

  lemma FinishRefundKeepsCancelled(l: Local, req: RefundRequest, i: nat, amount: int, reply: RefundReply, pnr: Pnr)
    requires ForeignKeys(l.db) && i < |l.db.payments| && IsCancelled(l.db, pnr)
    ensures
      var db' := FinishRefund(l, req, i, amount, Echo(reply, amount)).0.db;
      IsCancelled(db', pnr) && Latest(db'.payments, pnr) == Latest(l.db.payments, pnr)
  {
    var rows, rows' := l.db.payments, FinishRefund(l, req, i, amount, Echo(reply, amount)).0.db.payments;
    assert rows' == rows || rows' == rows[i := rows'[i]];
    LatestAfterUpdate(rows, i, rows'[i], pnr);
  }

  lemma DeliverKeepsCancelled(l: Local, event: WebhookEvent, pnr: Pnr)
    requires RowsValid(l.db) && IsCancelled(l.db, pnr)
    ensures IsCancelled(Webhook(l, event).0.db, pnr) &&
        Latest(Webhook(l, event).0.db.payments, pnr) == Latest(l.db.payments, pnr)
  {
    var (l', outcome) := Webhook(l, event);
    if outcome.Transitioned? {
      var i := BySession(l.db.payments, event.session.value).value;
      LatestAfterUpdate(l.db.payments, i, l'.db.payments[i], pnr);
    }
  }

  lemma StartKeepsCancelled(l: Local, req: SessionRequest, answer: SessionAnswer, pnr: Pnr)
    requires IsCancelled(l.db, pnr)
    ensures IsCancelled(CreateSession(l, req, answer).0.db, pnr)
    ensures Latest(CreateSession(l, req, answer).0.db.payments, pnr) == Latest(l.db.payments, pnr)
  {
    if PlanCreate(l, req).CreateCall? && answer.SessionCreated? {
      LatestAfterAppend(l.db.payments, NewPayment(req, PlanCreate(l, req).amount, answer.sessionId, answer.intent),
                        pnr);
    }
  }

  /** The statuses and rows of another booking are not a cancellation's business. */
  lemma CancelKeepsCancelled(l: Local, req: CancelRequest, airline: AirlineAnswer<int>, reply: RefundReply, pnr: Pnr)
    requires RowsValid(l.db) && IsCancelled(l.db, pnr)
    ensures IsCancelled(CancelStep(l, req, airline, reply).0.db, pnr)
    ensures Latest(CancelStep(l, req, airline, reply).0.db.payments, pnr) == Latest(l.db.payments, pnr)
  {
    CancelKeepsLatest(l, req, airline, reply, pnr);
    if !PlanCancel(l, req, airline).CancelStop? {
      CancelStepClosesOut(l, req, airline, reply);
      var marked := Local(MarkCancelled(l.db, req.pnr), Begin(l.entries, req.Key()).0);
      CloseOutKeepsCancelled(marked, req.pnr, airline.value, reply, pnr);
    }
  }

  lemma CloseOutKeepsCancelled(l: Local, cancelled: Pnr, refundable: int, reply: RefundReply, pnr: Pnr)
    requires ForeignKeys(l.db) && cancelled in l.db.bookings && IsCancelled(l.db, pnr)
    ensures IsCancelled(CloseOutTables(l, cancelled, refundable, reply), pnr)
  {
  }

  lemma CancelKeepsLatest(l: Local, req: CancelRequest, airline: AirlineAnswer<int>, reply: RefundReply, pnr: Pnr)
    requires RowsValid(l.db)
    ensures Latest(CancelStep(l, req, airline, reply).0.db.payments, pnr) == Latest(l.db.payments, pnr)
  {
    if !PlanCancel(l, req, airline).CancelStop? {
      CancelStepClosesOut(l, req, airline, reply);
      var marked := Local(MarkCancelled(l.db, req.pnr), Begin(l.entries, req.Key()).0);
      CloseOutKeepsLatest(marked, req.pnr, airline.value, reply, pnr);
    }
  }

  lemma CloseOutKeepsLatest(l: Local, cancelled: Pnr, refundable: int, reply: RefundReply, pnr: Pnr)
    requires ForeignKeys(l.db) && cancelled in l.db.bookings
    ensures Latest(CloseOutTables(l, cancelled, refundable, reply).payments, pnr) == Latest(l.db.payments, pnr)
  {
    var rows, rows' := l.db.payments, CloseOutTables(l, cancelled, refundable, reply).payments;
    if rows' != rows {
      var i := Latest(rows, cancelled).value;
      assert rows' == rows[i := rows'[i]];
      LatestAfterUpdate(rows, i, rows'[i], pnr);
    }
  }

  lemma StepKeepsCancelled(l: Local, step: Step, pnr: Pnr)
    requires RowsValid(l.db) && IsCancelled(l.db, pnr)
    ensures IsCancelled(Next(l, step).db, pnr) && Latest(Next(l, step).db.payments, pnr) == Latest(l.db.payments, pnr)
  {
    match step
    case StartSession(req, answer) => StartKeepsCancelled(l, req, answer, pnr);
    case Deliver(event) => DeliverKeepsCancelled(l, event, pnr);
    case StaffRefund(req, reply) => RefundKeepsCancelled(l, req, reply, pnr);
    case CancelBooking(req, airline, reply) => CancelKeepsCancelled(l, req, airline, reply, pnr);
    case ModifyBooking(req, change) => ModifyMovesNoMoney(l, req, change);
    case NewBooking(_, _) =>
  }

  lemma {:induction false} CancelledStays(l: Local, steps: seq<Step>, pnr: Pnr)
    requires Valid(l) && IsCancelled(l.db, pnr)
    ensures IsCancelled(Run(l, steps).db, pnr) && Latest(Run(l, steps).db.payments, pnr) == Latest(l.db.payments, pnr)
    decreases |steps|
  {
    if steps != [] {
      StepKeepsCancelled(l, steps[0], pnr);
      NextKeepsValid(l, steps[0]);
      CancelledStays(Next(l, steps[0]), steps[1..], pnr);
    }
  }

  /** Cancelling a cancelled booking again, after any steps, succeeds and changes nothing. */
  lemma CancellingAgainChangesNothing(l: Local, steps: seq<Step>, req: CancelRequest, airline: AirlineAnswer<int>,
                                      reply: RefundReply)
    requires Valid(l) && IsCancelled(l.db, req.pnr) && req.confirmed
    ensures
      var later := Run(l, steps);
      CancelStep(later, req, airline, reply) == (later, GotBooking(true))
  {
    CancelledStays(l, steps, req.pnr);
  }

  // ------------------------------------------------------------ when a cancelled booking is paid

  /** Over any run from a state in which a booking is cancelled: the status that the events
      accepted for its latest payment lead to. */
  ghost function Settled(l: Local, steps: seq<Step>, pnr: Pnr): SessionStatus
    requires ForeignKeys(l.db) && Latest(l.db.payments, pnr).Some?
  {
    var p := l.db.payments[Latest(l.db.payments, pnr).value];
    W.Settle(p.status, W.Accepted(l, steps, p.sessionId))
  }

  lemma PaidAfterCancelledExactlyWhen(l: Local, steps: seq<Step>, pnr: Pnr)
    requires Valid(l) && IsCancelled(l.db, pnr)
    ensures IsPaid(Run(l, steps).db, pnr) <==>
      !IsRefunded(Run(l, steps).db, pnr) && Latest(l.db.payments, pnr).Some? && Settled(l, steps, pnr).Succeeded?
  {
    CancelledStays(l, steps, pnr);
    RunKeepsValid(l, steps);
    if Latest(l.db.payments, pnr).Some? { W.StatusAfterRun(l, steps, Latest(l.db.payments, pnr).value); }
    PaidExactlyWhen(Run(l, steps).db, pnr);
  }

  predicate LatestSucceeded(db: Tables, pnr: Pnr) {
    match Latest(db.payments, pnr)
    case None => false
    case Some(i) => db.payments[i].status.Succeeded?
  }

  lemma PaidExactlyWhen(db: Tables, pnr: Pnr)
    requires RowsValid(db) && pnr in db.bookings
    ensures IsPaid(db, pnr) <==> !IsRefunded(db, pnr) && LatestSucceeded(db, pnr)
  {
    assert Mirrors(db, pnr);
  }

  /** A cancellation that goes through. */
  predicate Cancels(l: Local, req: CancelRequest, airline: AirlineAnswer<int>) {
    req.pnr in l.db.bookings && !IsCancelled(l.db, req.pnr) && !PlanCancel(l, req, airline).CancelStop?
  }

  lemma CancelledHere(l: Local, req: CancelRequest, airline: AirlineAnswer<int>, reply: RefundReply)
    requires Valid(l) && Cancels(l, req, airline)
    ensures
      var l' := CancelStep(l, req, airline, reply).0;
      && Valid(l') && IsCancelled(l'.db, req.pnr) && Latest(l'.db.payments, req.pnr) == Latest(l.db.payments, req.pnr)
      && (Latest(l.db.payments, req.pnr).Some? ==>
            W.SameStatus(l.db, l'.db, Latest(l.db.payments, req.pnr).value))
      && (IsRefunded(l'.db, req.pnr) <==>
          IsRefunded(l.db, req.pnr) || ClosesOut(l, CancelBooking(req, airline, reply), req.pnr))
  {
    CancelStepKeepsValid(l, req, airline, reply);
    CancelKeepsLatest(l, req, airline, reply, req.pnr);
    CancelMarks(l, req, airline, reply);
    if Latest(l.db.payments, req.pnr).Some? {
      W.CancelKeepsStatus(l, req, airline, reply, Latest(l.db.payments, req.pnr).value);
    }
    if !IsRefunded(l.db, req.pnr) { CancelRefundsExactlyWhen(l, req, airline, reply, req.pnr); }
  }

  lemma CancelMarks(l: Local, req: CancelRequest, airline: AirlineAnswer<int>, reply: RefundReply)
    requires RowsValid(l.db) && Cancels(l, req, airline)
    ensures IsCancelled(CancelStep(l, req, airline, reply).0.db, req.pnr)
  {
    CancelStepClosesOut(l, req, airline, reply);
  }

  /** What a cancelled booking owes its payment to: a payment captured before the cancellation
      that the cancellation did not close out, or one still open then that succeeds later. */
  ghost predicate PaidAnyway(l: Local, req: CancelRequest, airline: AirlineAnswer<int>, reply: RefundReply,
                             after: seq<Step>)
    requires RowsValid(l.db) && req.pnr in l.db.bookings
  {
    var payment, l' := l.db.bookings[req.pnr].payment, CancelStep(l, req, airline, reply).0;
    || (payment.Paid? && !ClosesOut(l, CancelBooking(req, airline, reply), req.pnr))
    || (payment.PaymentPending? && Latest(l'.db.payments, req.pnr).Some? && Settled(l', after, req.pnr).Succeeded?)
  }

  /** A cancelled booking is PAID, after any further steps, exactly when it is paid anyway and no
      later step has closed its payment out. */
  lemma CancelledIsPaidExactlyWhen(before: seq<Step>, req: CancelRequest, airline: AirlineAnswer<int>,
                                   reply: RefundReply, after: seq<Step>)
    requires Cancels(Run(EMPTY, before), req, airline)
    ensures
      var l := Run(EMPTY, before);
      var l' := CancelStep(l, req, airline, reply).0;
      && RowsValid(l.db) && req.pnr in l.db.bookings && IsCancelled(Run(l', after).db, req.pnr)
      && (IsPaid(Run(l', after).db, req.pnr) <==>
            PaidAnyway(l, req, airline, reply, after) && !ClosedOutDuring(l', after, req.pnr))
  {
    ReachedIsValid(before);
    CancelledLeadsTo(Run(EMPTY, before), req, airline, reply, after);
  }

  lemma CancelledLeadsTo(l: Local, req: CancelRequest, airline: AirlineAnswer<int>, reply: RefundReply,
                         after: seq<Step>)
    requires Valid(l) && Cancels(l, req, airline)
    ensures
      var l' := CancelStep(l, req, airline, reply).0;
      && IsCancelled(Run(l', after).db, req.pnr)
      && (IsPaid(Run(l', after).db, req.pnr) <==>
            PaidAnyway(l, req, airline, reply, after) && !ClosedOutDuring(l', after, req.pnr))
  {
    CancelledHere(l, req, airline, reply);
    var l' := CancelStep(l, req, airline, reply).0;
    CancelledStays(l', after, req.pnr);
    PaidAfterCancelledExactlyWhen(l', after, req.pnr);
    LatestDecides(l, l', req.pnr, after);
    RefundedAfterExactlyWhen(l', after, req.pnr);
  }

  /** What the latest payment at a cancellation leads to, by the booking's payment status then. */
  lemma LatestDecides(l: Local, l': Local, pnr: Pnr, after: seq<Step>)
    requires RowsValid(l.db) && pnr in l.db.bookings && ForeignKeys(l'.db)
    requires Latest(l'.db.payments, pnr) == Latest(l.db.payments, pnr)
    requires Latest(l.db.payments, pnr).Some? ==> W.SameStatus(l.db, l'.db, Latest(l.db.payments, pnr).value)
    ensures l.db.bookings[pnr].payment.Paid? || l.db.bookings[pnr].payment.Refunded? ==>
              Latest(l'.db.payments, pnr).Some? && Settled(l', after, pnr).Succeeded?
    ensures l.db.bookings[pnr].payment.Unpaid? || l.db.bookings[pnr].payment.PaymentFailed? ==>
              !(Latest(l'.db.payments, pnr).Some? && Settled(l', after, pnr).Succeeded?)
  {
    assert Mirrors(l.db, pnr);
    if Latest(l.db.payments, pnr).Some? {
      var p := l'.db.payments[Latest(l'.db.payments, pnr).value];
      if IsTerminal(p.status) { W.TerminalStays(p.status, W.Accepted(l', after, p.sessionId)); }
    }
  }

  // ------------------------------------------------------------ when it can no longer be paid

  /** A length that no event id reaches. */
  lemma {:induction false} EventIdsAreShorter(keys: set<Key>) returns (n: nat)
    ensures forall k | k in keys && k.EventKey? :: |k.id| < n
    decreases keys
  {
    if keys == {} {
      n := 0;
    } else {
      var key :| key in keys;
      var m := EventIdsAreShorter(keys - {key});
      n := if key.EventKey? && |key.id| >= m then |key.id| + 1 else m;
      forall k | k in keys && k.EventKey?
        ensures |k.id| < n
      {
        assert k == key || k in keys - {key};
      }
    }
  }

  /** An event that reports the asynchronous payment of a session, under an id not seen before. */
  lemma LatePayment(l: Local, i: nat) returns (event: WebhookEvent)
    requires RowsValid(l.db) && i < |l.db.payments| && !IsTerminal(l.db.payments[i].status)
    ensures
      var db' := Next(l, Deliver(event)).db;
      IsPaid(db', l.db.payments[i].pnr)
  {
    var n := EventIdsAreShorter(l.entries.Keys);
    var id := seq(n, k => 'e');
    var p := l.db.payments[i];
    event := WebhookEvent(id, AsyncPaymentSucceeded, Some(p.sessionId), None, None);
    assert EventKey(id) !in l.entries;
    assert BySession(l.db.payments, p.sessionId) == Some(i);
  }

  lemma PendingCanStillBePaid(l: Local, pnr: Pnr) returns (more: seq<Step>)
    requires Valid(l) && pnr in l.db.bookings && l.db.bookings[pnr].payment.PaymentPending?
    ensures IsPaid(Run(l, more).db, pnr)
  {
    PendingBookingHasOpenPayment(l.db, pnr);
    var event := LatePayment(l, Open(l.db.payments, pnr).value);
    RunOfOne(l, Deliver(event));
    more := [Deliver(event)];
  }

  lemma CancelKeepsPending(l: Local, req: CancelRequest, airline: AirlineAnswer<int>, reply: RefundReply)
    requires RowsValid(l.db) && Cancels(l, req, airline)
    ensures req.pnr in l.db.bookings
    ensures l.db.bookings[req.pnr].payment.PaymentPending? ==>
              CancelStep(l, req, airline, reply).0.db.bookings[req.pnr].payment.PaymentPending?
  {
    CancelStepClosesOut(l, req, airline, reply);
  }

  /** The booking is pending, or is paid and its payment not closed out by this cancellation. */
  predicate LeavesPayable(l: Local, req: CancelRequest, airline: AirlineAnswer<int>, reply: RefundReply)
    requires ForeignKeys(l.db) && req.pnr in l.db.bookings
  {
    var payment := l.db.bookings[req.pnr].payment;
    payment.PaymentPending? || (payment.Paid? && !ClosesOut(l, CancelBooking(req, airline, reply), req.pnr))
  }

  lemma PayableIsSomehowPaid(before: seq<Step>, req: CancelRequest, airline: AirlineAnswer<int>, reply: RefundReply)
    returns (after: seq<Step>)
    requires Cancels(Run(EMPTY, before), req, airline)
    requires LeavesPayable(Run(EMPTY, before), req, airline, reply)
    ensures IsPaid(Run(CancelStep(Run(EMPTY, before), req, airline, reply).0, after).db, req.pnr)
  {
    ReachedIsValid(before);
    var l := Run(EMPTY, before);
    if l.db.bookings[req.pnr].payment.PaymentPending? {
      CancelKeepsPending(l, req, airline, reply);
      CancelStepKeepsValid(l, req, airline, reply);
      after := PendingCanStillBePaid(CancelStep(l, req, airline, reply).0, req.pnr);
    } else {
      after := [];
      CancelledIsPaidExactlyWhen(before, req, airline, reply, after);
    }
  }

  /** After a cancellation some continuation ends PAID exactly when the booking was pending, or was
      paid and the cancellation has not closed its payment out; otherwise none does. */
  lemma PayableExactlyWhen(before: seq<Step>, req: CancelRequest, airline: AirlineAnswer<int>, reply: RefundReply)
    requires Cancels(Run(EMPTY, before), req, airline)
    ensures
      var l' := CancelStep(Run(EMPTY, before), req, airline, reply).0;
      (exists after :: IsPaid(Run(l', after).db, req.pnr)) <==> LeavesPayable(Run(EMPTY, before), req, airline, reply)
  {
    var l' := CancelStep(Run(EMPTY, before), req, airline, reply).0;
    if LeavesPayable(Run(EMPTY, before), req, airline, reply) {
      var after := PayableIsSomehowPaid(before, req, airline, reply);
    }
    if after :| IsPaid(Run(l', after).db, req.pnr) {
      CancelledIsPaidExactlyWhen(before, req, airline, reply, after);
    }
  }

  // ------------------------------------------------------------ it does happen

  const OPEN_AND_CANCELLED: seq<Step> := [
    NewBooking("P", 100),
    StartSession(SessionRequest(true, "P", "a"), SessionCreated(0, None)),
    CancelBooking(CancelRequest(true, "P", "c"), AirlineDone(90), RefundRefused)]

  const PAYMENT_COMPLETES := Deliver(WebhookEvent("e", SessionCompleted, Some(0), Some(7), Some(true)))

  const CANCELLED_STATE := Local(
    Tables(map["P" := Booking(Cancelled, PaymentPending, 100)],
           [Payment("P", SessionKey("a"), 0, None, Pending, 100, None, None, None)]),
    map[SessionKey("a") := Completed(PaymentRef(0)), CancelKey("c") := Completed(BookingRef("P"))])

  lemma CancelledStateIsReached()
    ensures Run(EMPTY, OPEN_AND_CANCELLED) == CANCELLED_STATE
  {
    var l1 := Next(EMPTY, OPEN_AND_CANCELLED[0]);
    assert l1 == Local(Tables(map["P" := Booking(Confirmed, Unpaid, 100)], []), map[]);
    var l2 := Next(l1, OPEN_AND_CANCELLED[1]);
    assert l2 == Local(
      Tables(map["P" := Booking(Confirmed, PaymentPending, 100)],
             [Payment("P", SessionKey("a"), 0, None, Pending, 100, None, None, None)]),
      map[SessionKey("a") := Completed(PaymentRef(0))]);
    assert Next(l2, OPEN_AND_CANCELLED[2]) == CANCELLED_STATE;
    assert Run(l2, OPEN_AND_CANCELLED[1..][1..]) == CANCELLED_STATE;
    assert Run(l1, OPEN_AND_CANCELLED[1..]) == CANCELLED_STATE;
  }

  /** A booking cancelled with an open session, whose customer then pays, ends CANCELLED and PAID. */
  lemma CancelledAndPaid()
    ensures
      var db := Next(Run(EMPTY, OPEN_AND_CANCELLED), PAYMENT_COMPLETES).db;
      IsCancelled(db, "P") && IsPaid(db, "P")
  {
    CancelledStateIsReached();
    assert BySession(CANCELLED_STATE.db.payments, 0) == Some(0);
  }
}
