/** What every serial run guarantees, whichever provider is behind it. `before` is any run
    from an empty database and `after` any continuation of it. */
module PaymentTheorems {
  import opened Wrappers
  import opened SessionStateMachine
  import opened Idempotency
  import opened PaymentTables
  import opened PaymentProvider
  import opened PaymentSteps
  import opened PaymentRuns

  lemma ReachedIsValid(before: seq<Step>)
    ensures Valid(Run(EMPTY, before))
  {
    RunKeepsValid(EMPTY, before);
  }

  /** The booking's latest payment has one of these statuses. */
  predicate LatestIs(db: Tables, pnr: Pnr, statuses: set<SessionStatus>) {
    Latest(db.payments, pnr).Some? && db.payments[Latest(db.payments, pnr).value].status in statuses
  }

  /** The booking is pending exactly while its latest payment is pending or processing, failed
      exactly when that failed, paid or refunded exactly when it succeeded, and otherwise unpaid. */
  predicate FollowsLatest(db: Tables, pnr: Pnr)
    requires pnr in db.bookings
  {
    var payment := db.bookings[pnr].payment;
    && (payment.PaymentPending? <==> LatestIs(db, pnr, {Pending, Processing}))
    && (payment.PaymentFailed? <==> LatestIs(db, pnr, {Failed}))
    && (payment.Paid? || payment.Refunded? <==> LatestIs(db, pnr, {Succeeded}))
    && (payment.Unpaid? <==> Latest(db.payments, pnr).None? || LatestIs(db, pnr, {Expired, Canceled}))
  }

  lemma BookingFollowsLatest(db: Tables, pnr: Pnr)
    requires BookingsMirrorPayments(db) && pnr in db.bookings
    ensures FollowsLatest(db, pnr)
  {
    assert Mirrors(db, pnr);
  }

  /** A booking has at most one payment that is not terminal, and it is the latest; the booking's
      payment status follows the latest payment's. */
  lemma OneOpenPayment(before: seq<Step>, pnr: Pnr)
    requires pnr in Run(EMPTY, before).db.bookings
    ensures
      var db := Run(EMPTY, before).db;
      && FollowsLatest(db, pnr)
      && (forall i | 0 <= i < |db.payments| && db.payments[i].pnr == pnr && !IsTerminal(db.payments[i].status) ::
            Latest(db.payments, pnr) == Some(i))
      && (db.bookings[pnr].payment.PaymentPending? ==> Open(db.payments, pnr).Some?)
  {
    ReachedIsValid(before);
    var db := Run(EMPTY, before).db;
    BookingFollowsLatest(db, pnr);
    forall i | 0 <= i < |db.payments| && db.payments[i].pnr == pnr && !IsTerminal(db.payments[i].status)
      ensures Latest(db.payments, pnr) == Some(i)
    {
      LiveIsLatest(db.payments, i);
    }
    if db.bookings[pnr].payment.PaymentPending? { PendingBookingHasOpenPayment(db, pnr); }
  }

  /** A booking acquires at most one succeeded payment, which stays succeeded, and no payment
      is added after it. */
  lemma NeverPaidTwice(before: seq<Step>, after: seq<Step>)
    ensures
      var rows, rows' := Run(EMPTY, before).db.payments, Run(Run(EMPTY, before), after).db.payments;
      && |rows| <= |rows'|
      && (forall i, j | 0 <= i < |rows'| && 0 <= j < |rows'| &&
            rows'[i].status.Succeeded? && rows'[j].status.Succeeded? && rows'[i].pnr == rows'[j].pnr :: i == j)
      && (forall i | 0 <= i < |rows| && rows[i].status.Succeeded? ::
            rows'[i].status.Succeeded? && rows'[i].pnr == rows[i].pnr)
      && (forall i, j | 0 <= i < |rows| && rows[i].status.Succeeded? && i < j < |rows'| :: rows'[j].pnr != rows[i].pnr)
  {
    ReachedIsValid(before);
    var l := Run(EMPTY, before);
    RunKeepsValid(l, after);
    var rows, rows' := l.db.payments, Run(l, after).db.payments;
    forall i | 0 <= i < |rows|
      ensures RowEvolves(rows[i], rows'[i])
    {
    }
    forall i, j | 0 <= i < j < |rows'| && rows'[i].pnr == rows'[j].pnr
      ensures !rows'[i].status.Succeeded?
    {
    }
  }

  /** Once a booking is refunded, its payment status and its payments never change again. */
  lemma RefundedIsFrozen(before: seq<Step>, after: seq<Step>, pnr: Pnr)
    requires IsRefunded(Run(EMPTY, before).db, pnr)
    ensures
      var db, db' := Run(EMPTY, before).db, Run(Run(EMPTY, before), after).db;
      && IsRefunded(db', pnr)
      && Latest(db.payments, pnr).Some? && Latest(db'.payments, pnr) == Latest(db.payments, pnr)
      && (forall i | 0 <= i < |db.payments| && db.payments[i].pnr == pnr :: db'.payments[i] == db.payments[i])
  {
    ReachedIsValid(before);
    var l := Run(EMPTY, before);
    RunKeepsValid(l, after);
    var db, db' := l.db, Run(l, after).db;
    assert Mirrors(db, pnr);
    var i := Latest(db.payments, pnr).value;
    assert db'.payments[i] == db.payments[i];
    LiveIsLatest(db'.payments, i);
  }

  /** What has been refunded only grows, never exceeds what was paid, and never moves a
      payment off SUCCEEDED: for every provider, whatever it answers. */
  lemma RefundsAreBounded(before: seq<Step>, after: seq<Step>, i: nat)
    requires i < |Run(EMPTY, before).db.payments|
    ensures i < |Run(Run(EMPTY, before), after).db.payments|
    ensures
      var p, p' := Run(EMPTY, before).db.payments[i], Run(Run(EMPTY, before), after).db.payments[i];
      && 0 <= RefundedOf(p) <= RefundedOf(p') <= p'.amount && p'.amount == p.amount
      && (p'.refunded.Some? ==> p'.status.Succeeded?)
  {
    ReachedIsValid(before);
    var l := Run(EMPTY, before);
    RunKeepsValid(l, after);
    assert RowEvolves(l.db.payments[i], Run(l, after).db.payments[i]);
    assert RefundBounded(l.db.payments[i]) && RefundBounded(Run(l, after).db.payments[i]);
  }

  // ------------------------------------------------------------ what one step does to the refund columns

  predicate Succeeds(reply: RefundReply) {
    reply.RefundReplied? && reply.status.RefundSucceeded?
  }

  predicate Rejects(reply: RefundReply) {
    reply.RefundReplied? && (reply.status.RefundFailed? || reply.status.RefundCanceled?)
  }

  /** The refund a step asks the provider for, as (payment, amount, reply); None when it asks for none. */
  function Asked(l: Local, step: Step): Option<(nat, int, RefundReply)>
    requires ForeignKeys(l.db)
  {
    match step
    case StaffRefund(req, reply) =>
      var plan := PlanRefund(l, req);
      if plan.RefundCall? then Some((plan.index, plan.amount, reply)) else None
    case CancelBooking(req, airline, reply) =>
      var plan := PlanCancel(l, req, airline);
      if plan.CancelCall? then Some((plan.index, plan.amount, reply)) else None
    case _ => None
  }

  /** The `refunded_amount` column, None and missing rows read as 0. */
  function RefundedAt(db: Tables, i: nat): int {
    if i < |db.payments| then RefundedOf(db.payments[i]) else 0
  }

  /** What a step credits to a payment's `refunded_amount`. */
  function Credited(asked: Option<(nat, int, RefundReply)>, i: nat): int {
    if asked.Some? && asked.value.0 == i && asked.value.2.RefundReplied? then asked.value.1 else 0
  }

  lemma CancelCredits(l: Local, req: CancelRequest, airline: AirlineAnswer<int>, reply: RefundReply, i: nat)
    requires RowsValid(l.db)
    ensures
      var db, db' := l.db, CancelStep(l, req, airline, reply).0.db;
      var asked := Asked(l, CancelBooking(req, airline, reply));
      && RefundedAt(db', i) == RefundedAt(db, i) + Credited(asked, i)
      && (asked.Some? ==> 0 < asked.value.1)
  {
    if !PlanCancel(l, req, airline).CancelStop? {
      CancelStepClosesOut(l, req, airline, reply);
      var marked := Local(MarkCancelled(l.db, req.pnr), Begin(l.entries, req.Key()).0);
      CloseOutCredits(marked, req.pnr, l.db.bookings[req.pnr].payment, airline.value, reply, i);
    }
  }

  lemma CloseOutCredits(l: Local, pnr: Pnr, payment: BookingPayment, refundable: int, reply: RefundReply, i: nat)
    requires ForeignKeys(l.db) && pnr in l.db.bookings && payment == l.db.bookings[pnr].payment
    ensures
      var plan := PlanCloseOut(l, pnr, payment, refundable);
      var asked := if plan.CancelCall? then Some((plan.index, plan.amount, reply)) else None;
      && RefundedAt(CloseOutTables(l, pnr, refundable, reply), i) == RefundedAt(l.db, i) + Credited(asked, i)
      && (asked.Some? ==> 0 < asked.value.1)
  {
  }

  lemma RefundCredits(l: Local, req: RefundRequest, reply: RefundReply, i: nat)
    requires RowsValid(l.db)
    ensures
      var db, db' := l.db, RefundStep(l, req, reply).0.db;
      var asked := Asked(l, StaffRefund(req, reply));
      && RefundedAt(db', i) == RefundedAt(db, i) + Credited(asked, i)
      && (asked.Some? ==> 0 < asked.value.1)
  {
    RefundIsAdmissible(l, req);
  }

  /** Every step credits exactly the amount it asked for and got an answer on. */
  lemma StepCredits(l: Local, step: Step, i: nat)
    requires RowsValid(l.db)
    ensures RefundedAt(Next(l, step).db, i) == RefundedAt(l.db, i) + Credited(Asked(l, step), i)
    ensures Asked(l, step).Some? ==> 0 < Asked(l, step).value.1
  {
    match step
    case StaffRefund(req, reply) => RefundCredits(l, req, reply, i);
    case CancelBooking(req, airline, reply) => CancelCredits(l, req, airline, reply, i);
    case StartSession(req, answer) => StartCreditsNothing(l, req, answer, i);
    case Deliver(event) => DeliverCreditsNothing(l, event, i);
    case _ =>
  }

  lemma StartCreditsNothing(l: Local, req: SessionRequest, answer: SessionAnswer, i: nat)
    requires RowsValid(l.db)
    ensures RefundedAt(CreateSession(l, req, answer).0.db, i) == RefundedAt(l.db, i)
  {
    StartIsAdmissible(l, req);
  }

  lemma DeliverCreditsNothing(l: Local, event: WebhookEvent, i: nat)
    requires RowsValid(l.db)
    ensures RefundedAt(Webhook(l, event).0.db, i) == RefundedAt(l.db, i)
  {
  }

  // ------------------------------------------------------------ the local ledger and the provider's

  /** What the provider has taken on over a run for one payment: every refund it did not reject. */
  ghost function TakenOn(l: Local, steps: seq<Step>, i: nat): int
    requires ForeignKeys(l.db)
    decreases |steps|
  {
    if steps == [] then 0
    else
      var asked := Asked(l, steps[0]);
      (if asked.Some? && Rejects(asked.value.2) then 0 else Credited(asked, i)) +
          TakenOn(Next(l, steps[0]), steps[1..], i)
  }

  /** Some refund of this payment came back FAILED or CANCELED during the run. */
  ghost predicate SomeRejected(l: Local, steps: seq<Step>, i: nat)
    requires ForeignKeys(l.db)
    decreases |steps|
  {
    steps != [] &&
    (var asked := Asked(l, steps[0]);
     (asked.Some? && asked.value.0 == i && Rejects(asked.value.2)) || SomeRejected(Next(l, steps[0]), steps[1..], i))
  }

  lemma {:induction false} RunCredits(l: Local, steps: seq<Step>, i: nat)
    requires Valid(l)
    ensures RefundedAt(Run(l, steps).db, i) >= RefundedAt(l.db, i) + TakenOn(l, steps, i)
    ensures RefundedAt(Run(l, steps).db, i) == RefundedAt(l.db, i) + TakenOn(l, steps, i) <==>
        !SomeRejected(l, steps, i)
    decreases |steps|
  {
    if steps != [] {
      StepCredits(l, steps[0], i);
      NextKeepsValid(l, steps[0]);
      RunCredits(Next(l, steps[0]), steps[1..], i);
    }
  }

  /** `apply_refund_outcome` adds the amount for every status, so a payment's
      `refunded_amount` is what the provider took on exactly when none of its refunds came
      back FAILED or CANCELED; otherwise it is more. */
  lemma LedgersAgreeUnlessRejected(before: seq<Step>, i: nat)
    ensures RefundedAt(Run(EMPTY, before).db, i) >= TakenOn(EMPTY, before, i)
    ensures RefundedAt(Run(EMPTY, before).db, i) == TakenOn(EMPTY, before, i) <==> !SomeRejected(EMPTY, before, i)
  {
    RunCredits(EMPTY, before, i);
  }

  const OPEN_BOOKING: seq<Step> := [
    NewBooking("P", 100),
    StartSession(SessionRequest(true, "P", "a"), SessionCreated(0, None))]

  const OPEN_STATE := Local(
    Tables(map["P" := Booking(Confirmed, PaymentPending, 100)],
           [Payment("P", SessionKey("a"), 0, None, Pending, 100, None, None, None)]),
    map[SessionKey("a") := Completed(PaymentRef(0))])

  lemma OpenStateIsReached()
    ensures Run(EMPTY, OPEN_BOOKING) == OPEN_STATE
  {
    var l1 := Next(EMPTY, OPEN_BOOKING[0]);
    assert l1 == Local(Tables(map["P" := Booking(Confirmed, Unpaid, 100)], []), map[]);
    assert Next(l1, OPEN_BOOKING[1]) == OPEN_STATE;
    assert Run(OPEN_STATE, OPEN_BOOKING[1..][1..]) == OPEN_STATE;
    assert Run(l1, OPEN_BOOKING[1..]) == OPEN_STATE;
  }

  const DECLINE := Deliver(WebhookEvent("f", AsyncPaymentFailed, Some(0), None, None))

  const DECLINED_STATE := Local(
    Tables(map["P" := Booking(Confirmed, PaymentFailed, 100)],
           [Payment("P", SessionKey("a"), 0, None, Failed, 100, None, None, None)]),
    OPEN_STATE.entries[EventKey("f") := Completed(EventOutcome)])

  /** A run in which a payment fails: the booking shows it, and a new session can be started. */
  lemma FailedPaymentLeavesOpen(req: SessionRequest)
    requires req == SessionRequest(true, "P", "b")
    ensures Next(Run(EMPTY, OPEN_BOOKING), DECLINE) == DECLINED_STATE
    ensures
      var (l, outcome) := CreateSession(DECLINED_STATE, req, SessionCreated(1, None));
      && outcome == GotPayment(1) && l.db.bookings == map["P" := Booking(Confirmed, PaymentPending, 100)]
      && l.db.payments[..1] == DECLINED_STATE.db.payments && l.db.payments[1].status.Pending?
  {
    OpenStateIsReached();
    assert BySession(OPEN_STATE.db.payments, 0) == Some(0);
    DeclinedBookingOpensAnother(req);
  }

  lemma DeclinedBookingOpensAnother(req: SessionRequest)
    requires req == SessionRequest(true, "P", "b")
    ensures
      var (l, outcome) := CreateSession(DECLINED_STATE, req, SessionCreated(1, None));
      && outcome == GotPayment(1) && l.db.bookings == map["P" := Booking(Confirmed, PaymentPending, 100)]
      && l.db.payments[..1] == DECLINED_STATE.db.payments && l.db.payments[1].status.Pending?
  {
  }

  const PAID_BOOKING: seq<Step> := [
    NewBooking("P", 100),
    StartSession(SessionRequest(true, "P", "a"), SessionCreated(0, None)),
    Deliver(WebhookEvent("e", SessionCompleted, Some(0), Some(7), Some(true)))]

  const PAID_STATE := Local(
    Tables(map["P" := Booking(Confirmed, Paid, 100)],
           [Payment("P", SessionKey("a"), 0, Some(7), Succeeded, 100, None, None, None)]),
    map[SessionKey("a") := Completed(PaymentRef(0)), EventKey("e") := Completed(EventOutcome)])

  lemma PaidStateIsReached()
    ensures Run(EMPTY, PAID_BOOKING) == PAID_STATE
  {
    var l1 := Next(EMPTY, PAID_BOOKING[0]);
    assert l1 == Local(Tables(map["P" := Booking(Confirmed, Unpaid, 100)], []), map[]);
    var l2 := Next(l1, PAID_BOOKING[1]);
    assert l2 == Local(
      Tables(map["P" := Booking(Confirmed, PaymentPending, 100)],
             [Payment("P", SessionKey("a"), 0, None, Pending, 100, None, None, None)]),
      map[SessionKey("a") := Completed(PaymentRef(0))]);
    assert BySession(l2.db.payments, 0) == Some(0);
    assert Next(l2, PAID_BOOKING[2]) == PAID_STATE;
    assert Run(l2, PAID_BOOKING[1..][1..]) == PAID_STATE;
    assert Run(l1, PAID_BOOKING[1..]) == PAID_STATE;
  }

  const FAILED_REFUND := StaffRefund(RefundRequest(true, "P", None, "b"), RefundReplied(RefundKey("b"), RefundFailed))

  const FAILED_STATE := PAID_STATE.(db := Tables(PAID_STATE.db.bookings, [
    PAID_STATE.db.payments[0].(refunded := Some(100), refundStatus := Some(RefundFailed),
                               refundId := Some(RefundKey("b")))]))

  lemma FailedStateIsNext()
    ensures Next(PAID_STATE, FAILED_REFUND) == FAILED_STATE
    ensures Asked(PAID_STATE, FAILED_REFUND) == Some((0, 100, RefundReplied(RefundKey("b"), RefundFailed)))
  {
    assert Latest(PAID_STATE.db.payments, "P") == Some(0);
    assert PAID_STATE.entries[RefundKey("b") := InProgress] - {RefundKey("b")} == PAID_STATE.entries;
  }

  lemma TakenOnOne(l: Local, step: Step, i: nat)
    requires ForeignKeys(l.db)
    ensures
      var asked := Asked(l, step);
      TakenOn(l, [step], i) == if asked.Some? && Rejects(asked.value.2) then 0 else Credited(asked, i)
  {
    assert [step][1..] == [];
    assert TakenOn(Next(l, step), [], i) == 0;
  }

  /** A run in which the two disagree: after `PAID_BOOKING`, a refund the provider answers FAILED. */
  lemma RejectedRefundIsStillCounted()
    ensures RefundedAt(Next(Run(EMPTY, PAID_BOOKING), FAILED_REFUND).db, 0) == 100
    ensures TakenOn(Run(EMPTY, PAID_BOOKING), [FAILED_REFUND], 0) == 0
  {
    PaidStateIsReached();
    FailedStateIsNext();
    TakenOnOne(PAID_STATE, FAILED_REFUND, 0);
  }

  // ------------------------------------------------------------ when a booking becomes refunded

  /** A staff refund of everything that is left, or a cancellation of a paid booking, whose
      refund the provider answers SUCCEEDED or that needs none. */
  predicate ClosesOut(l: Local, step: Step, pnr: Pnr)
    requires ForeignKeys(l.db)
  {
    match step
    case StaffRefund(req, reply) =>
      var plan := PlanRefund(l, req);
      && req.pnr == pnr && plan.RefundCall? && Succeeds(reply)
      && plan.amount == l.db.payments[plan.index].amount - RefundedOf(l.db.payments[plan.index])
    case CancelBooking(req, airline, reply) =>
      var plan := PlanCancel(l, req, airline);
      && req.pnr == pnr
      && ((plan.CancelCall? && Succeeds(reply)) || (plan.CancelCommit? && HasCapturedPayment(l.db, pnr)))
    case _ => false
  }

  predicate HasCapturedPayment(db: Tables, pnr: Pnr) {
    && pnr in db.bookings && db.bookings[pnr].payment.Paid?
    && match Latest(db.payments, pnr) case None => false case Some(i) => db.payments[i].intent.Some?
  }

  lemma CancelRefundsExactlyWhen(l: Local, req: CancelRequest, airline: AirlineAnswer<int>, reply: RefundReply,
                                 pnr: Pnr)
    requires RowsValid(l.db) && !IsRefunded(l.db, pnr)
    ensures IsRefunded(CancelStep(l, req, airline, reply).0.db, pnr) <==>
        ClosesOut(l, CancelBooking(req, airline, reply), pnr)
  {
    if !PlanCancel(l, req, airline).CancelStop? {
      CancelStepClosesOut(l, req, airline, reply);
      assert Mirrors(l.db, req.pnr);
      var marked := Local(MarkCancelled(l.db, req.pnr), Begin(l.entries, req.Key()).0);
      CloseOutRefundsExactlyWhen(marked, req.pnr, airline.value, reply, pnr);
    }
  }

  lemma CloseOutRefundsExactlyWhen(l: Local, cancelled: Pnr, refundable: int, reply: RefundReply, pnr: Pnr)
    requires ForeignKeys(l.db) && cancelled in l.db.bookings && Mirrors(l.db, cancelled) && !IsRefunded(l.db, pnr)
    ensures
      var plan := PlanCloseOut(l, cancelled, l.db.bookings[cancelled].payment, refundable);
      IsRefunded(CloseOutTables(l, cancelled, refundable, reply), pnr) <==>
      cancelled == pnr && ((plan.CancelCall? && Succeeds(reply)) ||
                           (plan.CancelCommit? && HasCapturedPayment(l.db, pnr)))
  {
  }

  lemma RefundRefundsExactlyWhen(l: Local, req: RefundRequest, reply: RefundReply, pnr: Pnr)
    requires RowsValid(l.db) && !IsRefunded(l.db, pnr)
    ensures IsRefunded(RefundStep(l, req, reply).0.db, pnr) <==> ClosesOut(l, StaffRefund(req, reply), pnr)
  {
    RefundIsAdmissible(l, req);
  }

  lemma StepRefundsExactlyWhen(l: Local, step: Step, pnr: Pnr)
    requires RowsValid(l.db) && !IsRefunded(l.db, pnr)
    ensures IsRefunded(Next(l, step).db, pnr) <==> ClosesOut(l, step, pnr)
  {
    match step
    case StaffRefund(req, reply) => RefundRefundsExactlyWhen(l, req, reply, pnr);
    case CancelBooking(req, airline, reply) => CancelRefundsExactlyWhen(l, req, airline, reply, pnr);
    case StartSession(req, answer) => StartRefundsNothing(l, req, answer, pnr);
    case Deliver(event) => DeliverRefundsNothing(l, event, pnr);
    case _ =>
  }

  lemma StartRefundsNothing(l: Local, req: SessionRequest, answer: SessionAnswer, pnr: Pnr)
    requires !IsRefunded(l.db, pnr)
    ensures !IsRefunded(CreateSession(l, req, answer).0.db, pnr)
  {
  }

  lemma DeliverRefundsNothing(l: Local, event: WebhookEvent, pnr: Pnr)
    requires ForeignKeys(l.db) && !IsRefunded(l.db, pnr)
    ensures !IsRefunded(Webhook(l, event).0.db, pnr)
  {
  }

  /** In any reached state a step makes a booking REFUNDED exactly when it closes its payment out. */
  lemma RefundedExactlyWhen(before: seq<Step>, step: Step, pnr: Pnr)
    requires !IsRefunded(Run(EMPTY, before).db, pnr)
    ensures IsRefunded(Next(Run(EMPTY, before), step).db, pnr) <==> ClosesOut(Run(EMPTY, before), step, pnr)
  {
    ReachedIsValid(before);
    StepRefundsExactlyWhen(Run(EMPTY, before), step, pnr);
  }
}
