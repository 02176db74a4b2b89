/** What a refund that is sent leaves in the tables, and what the refund columns therefore say
    after a run. */
module RefundRecords {
  import opened Wrappers
  import opened SessionStateMachine
  import opened Idempotency
  import opened PaymentTables
  import opened PaymentProvider
  import opened PaymentSteps
  import opened PaymentRuns
  import opened PaymentTheorems
  import opened PaymentRetries
  import opened RememberedKeys

  // ------------------------------------------------------------ one staff refund

  /** The tables after a refund of payment `i` that the provider has answered. */
  function Recorded(db: Tables, i: nat, amount: int, reply: RefundReply): Tables
    requires i < |db.payments| && db.payments[i].pnr in db.bookings && reply.RefundReplied?
  {
    var p, booking := db.payments[i], db.bookings[db.payments[i].pnr];
    var closed := amount == LeftOf(p) && reply.status.RefundSucceeded?;
    Tables(db.bookings[p.pnr := if closed then booking.(payment := Refunded) else booking],
           db.payments[i := p.(refunded := Some(p.amount - (LeftOf(p) - amount)), refundStatus := Some(reply.status),
                               refundId := Some(reply.refundId))])
  }

  /** A refund that is sent and refused changes nothing and is forgotten. One that is answered is
      recorded whatever the answer, and remembered unless it was rejected; the booking becomes
      REFUNDED exactly when all that was left was refunded with success. */
  lemma SentRefundIsRecorded(l: Local, req: RefundRequest, reply: RefundReply)
    requires Valid(l) && OpenToRefund(l.db, req) && req.Key() !in l.entries
    ensures
      var (l', outcome) := RefundStep(l, req, reply);
      var i := Latest(l.db.payments, req.pnr).value;
      match reply
      case RefundRefused => l' == l && outcome == Raised(ProviderFailed)
      case RefundReplied(_, status) =>
        && l'.db == Recorded(l.db, i, req.amount.GetOr(LeftOf(l.db.payments[i])), reply)
        && (if Rejects(reply) then l'.entries == l.entries && outcome == Raised(RefundNotCompleted(status))
            else l'.entries == l.entries[req.Key() := Completed(PaymentRef(i))] && outcome == GotPayment(i))
  {
    RefundIsSentExactlyWhen(l, req);
    SentRefundIsNew(l, req);
    assert l.entries[req.Key() := InProgress] - {req.Key()} == l.entries;
  }

  /** A refund that the provider refuses can be sent again: after any further steps the same
      request reaches the provider exactly when what is then left covers it and no step has since
      carried a refund out under its key. */
  lemma RefusedRefundIsSentAgain(before: seq<Step>, req: RefundRequest, after: seq<Step>)
    requires RefundStep(Run(EMPTY, before), req, RefundRefused).1 == Raised(ProviderFailed)
    ensures
      var l := Run(EMPTY, before);
      && RefundStep(l, req, RefundRefused).0 == l
      && (PlanRefund(Run(l, after), req).RefundCall? <==>
            OpenToRefund(Run(l, after).db, req) && !CarriedOut(before + after, req.Key()))
  {
    ReachedIsValid(before);
    var l := Run(EMPTY, before);
    RaisedRefundChangesNothing(l, req, RefundRefused);
    RunKeepsValid(l, after);
    RefundIsSentExactlyWhen(Run(l, after), req);
    RunAppends(EMPTY, before, after);
    KnownExactlyWhen(before + after, req.Key());
  }

  const PARTIAL := RefundRequest(true, "P", Some(40), "b")

  /** A run in which it is: the first answer to a partial refund of `PAID_BOOKING` is a refusal, the
      second one makes it. */
  lemma RefusedThenRefunded()
    ensures
      var l := Run(EMPTY, PAID_BOOKING);
      && RefundStep(l, PARTIAL, RefundRefused) == (l, Raised(ProviderFailed))
      && RefundStep(l, PARTIAL, RefundReplied(RefundKey("b"), RefundSucceeded)).1 == GotPayment(0)
      && RefundedAt(RefundStep(l, PARTIAL, RefundReplied(RefundKey("b"), RefundSucceeded)).0.db, 0) == 40
  {
    PaidStateIsReached();
    ReachedIsValid(PAID_BOOKING);
    assert Latest(PAID_STATE.db.payments, "P") == Some(0);
    SentRefundIsRecorded(PAID_STATE, PARTIAL, RefundRefused);
    SentRefundIsRecorded(PAID_STATE, PARTIAL, RefundReplied(RefundKey("b"), RefundSucceeded));
  }

  // ------------------------------------------------------------ the refund of a cancellation

  /** What a cancellation has to refund: the airline's amount, and no more than is left. */
  function DueOn(db: Tables, pnr: Pnr, refundable: int): int
    requires HasCapturedPayment(db, pnr)
  {
    var left := LeftOf(db.payments[Latest(db.payments, pnr).value]);
    if refundable <= left then refundable else left
  }

  /** A cancellation asks for a refund exactly when it is carried out on a paid booking and
      something is due; when nothing is due it closes the payment out itself. */
  lemma CancellationAsksExactlyWhen(l: Local, req: CancelRequest, airline: AirlineAnswer<int>)
    requires Valid(l)
    ensures
      var plan := PlanCancel(l, req, airline);
      && (plan.CancelCall? <==>
            CarriesOutCancel(l, req, airline) && HasCapturedPayment(l.db, req.pnr) &&
            DueOn(l.db, req.pnr, airline.value) > 0)
      && (plan.CancelCall? ==>
            && Some(plan.index) == Latest(l.db.payments, req.pnr)
            && plan.intent == l.db.payments[plan.index].intent.value
            && plan.amount == DueOn(l.db, req.pnr, airline.value))
  {
    CancelIsCarriedOutExactlyWhen(l, req, airline);
    if req.pnr in l.db.bookings { BookingFollowsLatest(l.db, req.pnr); }
  }

  // ------------------------------------------------------------ the refund columns over runs

  /** The refund columns of a payment besides the amount. */
  datatype Columns = Columns(status: Option<RefundStatus>, id: Option<Key>)

  function ColumnsOf(rows: seq<Payment>, i: nat): Columns {
    if i < |rows| then Columns(rows[i].refundStatus, rows[i].refundId) else Columns(None, None)
  }

  /** The step sends the provider a refund of payment `i`. */
  predicate Sends(l: Local, step: Step, i: nat) {
    match step
    case StaffRefund(req, _) =>
      OpenToRefund(l.db, req) && req.Key() !in l.entries && Latest(l.db.payments, req.pnr) == Some(i)
    case CancelBooking(req, airline, _) =>
      && CarriesOutCancel(l, req, airline) && HasCapturedPayment(l.db, req.pnr)
      && Latest(l.db.payments, req.pnr) == Some(i) && DueOn(l.db, req.pnr, airline.value) > 0
    case _ => false
  }

  /** The step closes payment `i` out without a refund. */
  predicate ClosesForNothing(l: Local, step: Step, i: nat) {
    && step.CancelBooking? && CarriesOutCancel(l, step.cancel, step.airline)
    && HasCapturedPayment(l.db, step.cancel.pnr)
    && Latest(l.db.payments, step.cancel.pnr) == Some(i) && DueOn(l.db, step.cancel.pnr, step.airline.value) <= 0
  }

  function ColumnsAfter(l: Local, step: Step, i: nat, before: Columns): Columns {
    if Sends(l, step, i) && step.reply.RefundReplied? then Columns(Some(step.reply.status), Some(step.reply.refundId))
    else if ClosesForNothing(l, step, i) then before.(status := Some(RefundSucceeded))
    else before
  }

  /** What the steps so far have noted on payment `i`: the last answer to a refund of it, or a
      success without one when a cancellation had nothing to refund. */
  function Noted(steps: seq<Step>, i: nat): Columns {
    if steps == [] then Columns(None, None)
    else
      var init, last := steps[..|steps| - 1], steps[|steps| - 1];
      ColumnsAfter(Run(EMPTY, init), last, i, Noted(init, i))
  }

  lemma StartNotes(l: Local, req: SessionRequest, answer: SessionAnswer, i: nat)
    requires ForeignKeys(l.db)
    ensures ColumnsOf(CreateSession(l, req, answer).0.db.payments, i) == ColumnsOf(l.db.payments, i)
  {
  }

  lemma DeliverNotes(l: Local, event: WebhookEvent, i: nat)
    requires ForeignKeys(l.db)
    ensures ColumnsOf(Webhook(l, event).0.db.payments, i) == ColumnsOf(l.db.payments, i)
  {
  }

  lemma RefundNotes(l: Local, req: RefundRequest, reply: RefundReply, i: nat)
    requires Valid(l)
    ensures ColumnsOf(RefundStep(l, req, reply).0.db.payments, i) ==
            ColumnsAfter(l, StaffRefund(req, reply), i, ColumnsOf(l.db.payments, i))
  {
    RefundIsSentExactlyWhen(l, req);
    if PlanRefund(l, req).RefundCall? { SentRefundIsRecorded(l, req, reply); }
  }

  lemma CancelNotes(l: Local, req: CancelRequest, airline: AirlineAnswer<int>, reply: RefundReply, i: nat)
    requires Valid(l)
    ensures ColumnsOf(CancelStep(l, req, airline, reply).0.db.payments, i) ==
            ColumnsAfter(l, CancelBooking(req, airline, reply), i, ColumnsOf(l.db.payments, i))
  {
    CancelIsCarriedOutExactlyWhen(l, req, airline);
    if CarriesOutCancel(l, req, airline) {
      CancelStepClosesOut(l, req, airline, reply);
      BookingFollowsLatest(l.db, req.pnr);
      CloseOutNotes(l, req, airline, reply, i);
    }
  }

  lemma CloseOutNotes(l: Local, req: CancelRequest, airline: AirlineAnswer<int>, reply: RefundReply, i: nat)
    requires ForeignKeys(l.db) && CarriesOutCancel(l, req, airline) && FollowsLatest(l.db, req.pnr)
    ensures
      var marked := Local(MarkCancelled(l.db, req.pnr), Begin(l.entries, req.Key()).0);
      ColumnsOf(CloseOutTables(marked, req.pnr, airline.value, reply).payments, i) ==
      ColumnsAfter(l, CancelBooking(req, airline, reply), i, ColumnsOf(l.db.payments, i))
  {
  }

  lemma NextNotes(l: Local, step: Step, i: nat)
    requires Valid(l)
    ensures ColumnsOf(Next(l, step).db.payments, i) == ColumnsAfter(l, step, i, ColumnsOf(l.db.payments, i))
  {
    match step
    case StartSession(req, answer) => StartNotes(l, req, answer, i);
    case Deliver(event) => DeliverNotes(l, event, i);
    case StaffRefund(req, reply) => RefundNotes(l, req, reply, i);
    case CancelBooking(req, airline, reply) => CancelNotes(l, req, airline, reply, i);
    case ModifyBooking(req, change) => ModifyMovesNoMoney(l, req, change);
    case NewBooking(_, _) =>
  }

  /** After every run a payment's refund status and refund id are those of the last answer to a
      refund of it, rejected or not. */
  lemma {:induction false} ColumnsShowTheLastAnswer(steps: seq<Step>, i: nat)
    ensures ColumnsOf(Run(EMPTY, steps).db.payments, i) == Noted(steps, i)
    decreases |steps|
  {
    if steps != [] {
      var init := steps[..|steps| - 1];
      ColumnsShowTheLastAnswer(init, i);
      ReachedIsValid(init);
      RunOneMore(EMPTY, steps);
      NextNotes(Run(EMPTY, init), steps[|steps| - 1], i);
    }
  }
}
