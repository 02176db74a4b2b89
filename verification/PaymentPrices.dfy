/** What a payment charges: the booking's price in the state in which its session was started. */
module PaymentPrices {
  import opened Wrappers
  import opened SessionStateMachine
  import opened Idempotency
  import opened PaymentTables
  import opened PaymentProvider
  import opened PaymentSteps
  import opened PaymentRuns
  import opened PaymentTheorems
  import opened BookingStatuses

  /** The price that the steps so far gave a booking: its first, or that of the last change the
      service carried out. */
  function LastPrice(steps: seq<Step>, pnr: Pnr): Option<nat> {
    if steps == [] then None
    else
      var init, price := steps[..|steps| - 1], LastPrice(steps[..|steps| - 1], pnr);
      match steps[|steps| - 1]
      case NewBooking(p, total) => if p == pnr && price.None? then Some(total) else price
      case ModifyBooking(req, AirlineDone(total)) =>
        if req.pnr == pnr && CarriesOutChange(Run(EMPTY, init), req, AirlineDone(total)) then Some(total) else price
      case _ => price
  }

  function PriceOf(db: Tables, pnr: Pnr): Option<nat> {
    if pnr in db.bookings then Some(db.bookings[pnr].totalPrice) else None
  }

  lemma RefundKeepsPrice(l: Local, req: RefundRequest, reply: RefundReply, pnr: Pnr)
    requires ForeignKeys(l.db)
    ensures PriceOf(RefundStep(l, req, reply).0.db, pnr) == PriceOf(l.db, pnr)
  {
  }

  lemma CancelKeepsPrice(l: Local, req: CancelRequest, airline: AirlineAnswer<int>, reply: RefundReply, pnr: Pnr)
    requires ForeignKeys(l.db)
    ensures PriceOf(CancelStep(l, req, airline, reply).0.db, pnr) == PriceOf(l.db, pnr)
  {
    if !PlanCancel(l, req, airline).CancelStop? { CancelStepClosesOut(l, req, airline, reply); }
  }

  lemma DeliverKeepsPrice(l: Local, event: WebhookEvent, pnr: Pnr)
    requires ForeignKeys(l.db)
    ensures PriceOf(Webhook(l, event).0.db, pnr) == PriceOf(l.db, pnr)
  {
  }

  lemma StartKeepsPrice(l: Local, req: SessionRequest, answer: SessionAnswer, pnr: Pnr)
    ensures PriceOf(CreateSession(l, req, answer).0.db, pnr) == PriceOf(l.db, pnr)
  {
  }

  /** A booking's price is its last one, whatever else happened to it. */
  lemma {:induction false} PriceIsTheLastOne(steps: seq<Step>, pnr: Pnr)
    ensures PriceOf(Run(EMPTY, steps).db, pnr) == LastPrice(steps, pnr)
    decreases |steps|
  {
    if steps != [] {
      var l := Run(EMPTY, steps[..|steps| - 1]);
      PriceIsTheLastOne(steps[..|steps| - 1], pnr);
      RunOneMore(EMPTY, steps);
      match steps[|steps| - 1]
      case StartSession(req, answer) => StartKeepsPrice(l, req, answer, pnr);
      case Deliver(event) => DeliverKeepsPrice(l, event, pnr);
      case StaffRefund(req, reply) => RefundKeepsPrice(l, req, reply, pnr);
      case CancelBooking(req, airline, reply) => CancelKeepsPrice(l, req, airline, reply, pnr);
      case _ =>
    }
  }

  /** Rows are added by session starts only, at the price of that moment. */
  lemma NewRowChargesThePrice(l: Local, step: Step)
    requires RowsValid(l.db)
    ensures
      var rows, rows' := l.db.payments, Next(l, step).db.payments;
      |rows'| > |rows| ==>
        && |rows'| == |rows| + 1 && step.StartSession? && rows'[|rows|].pnr == step.session.pnr
        && PriceOf(l.db, step.session.pnr) == Some(rows'[|rows|].amount)
  {
    match step
    case StartSession(req, answer) => StartIsAdmissible(l, req);
    case Deliver(event) => DeliverKeepsRowsValid(l, event);
    case StaffRefund(req, reply) => RefundStepKeepsRowsValid(l, req, reply);
    case CancelBooking(req, airline, reply) => CancelStepKeepsRowsValid(l, req, airline, reply);
    case _ =>
  }

  ghost predicate ChargedAt(steps: seq<Step>, k: nat, p: Payment)
    requires k < |steps|
  {
    steps[k].StartSession? && steps[k].session.pnr == p.pnr && LastPrice(steps[..k], p.pnr) == Some(p.amount)
  }

  lemma LastStepCharges(steps: seq<Step>, i: nat)
    requires steps != []
    requires |Run(EMPTY, steps[..|steps| - 1]).db.payments| <= i < |Run(EMPTY, steps).db.payments|
    ensures i == |Run(EMPTY, steps[..|steps| - 1]).db.payments|
    ensures ChargedAt(steps, |steps| - 1, Run(EMPTY, steps).db.payments[i])
  {
    var init, last := steps[..|steps| - 1], steps[|steps| - 1];
    RunOneMore(EMPTY, steps);
    ReachedIsValid(init);
    NewRowChargesThePrice(Run(EMPTY, init), last);
    PriceIsTheLastOne(init, last.session.pnr);
  }

  lemma RowsOnlyEvolve(steps: seq<Step>, i: nat)
    requires steps != [] && i < |Run(EMPTY, steps[..|steps| - 1]).db.payments|
    ensures i < |Run(EMPTY, steps).db.payments|
    ensures RowEvolves(Run(EMPTY, steps[..|steps| - 1]).db.payments[i], Run(EMPTY, steps).db.payments[i])
  {
    var init := steps[..|steps| - 1];
    RunOneMore(EMPTY, steps);
    ReachedIsValid(init);
    NextKeepsValid(Run(EMPTY, init), steps[|steps| - 1]);
  }

  /** Every payment, at the end of every run, charges the booking's last price before the step
      that started its session: later changes of price do not reach it. */
  lemma {:induction false} EveryPaymentChargesThePriceThen(steps: seq<Step>, i: nat) returns (k: nat)
    requires i < |Run(EMPTY, steps).db.payments|
    ensures k < |steps| && ChargedAt(steps, k, Run(EMPTY, steps).db.payments[i])
    ensures |Run(EMPTY, steps[..k]).db.payments| == i
    decreases |steps|
  {
    var init := steps[..|steps| - 1];
    if i < |Run(EMPTY, init).db.payments| {
      k := EveryPaymentChargesThePriceThen(init, i);
      RowsOnlyEvolve(steps, i);
      assert init[..k] == steps[..k];
    } else {
      k := |steps| - 1;
      LastStepCharges(steps, i);
    }
  }
}
