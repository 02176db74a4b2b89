/** The service calls as functions on the tables and the deduplication store. Each call
    that talks to a provider is split where it does: a plan that runs up to the request,
    and a finish that takes whatever the provider answered. */
module PaymentSteps {
  import opened Wrappers
  import opened SessionStateMachine
  import opened Idempotency
  import opened PaymentTables
  import opened PaymentProvider

  datatype Local = Local(db: Tables, entries: Entries)

  datatype Error =
    | ConfirmationRequired
    | BookingNotFound
    | BookingNotPayable
    | BookingNotModifiable
    | NoChangesSpecified
    | PaymentAlreadyCompleted
    | PaymentAlreadyRefunded
    | PaymentNotRefundable
    | InvalidRefundAmount
    | RequestInProgress
    | MalformedStoredResult
    | ProviderFailed
    | DatabaseRejected
    | RefundNotCompleted(status: RefundStatus)

  datatype Outcome =
    | GotPayment(index: nat)
    | GotBooking(alreadyCancelled: bool)
    | DuplicateEvent
    | IrrelevantEvent
    | UnmatchedSession
    | NoTransition
    | Transitioned(status: SessionStatus)
    | Raised(error: Error)

  // ------------------------------------------------------------ create session

  datatype SessionRequest = SessionRequest(confirmed: bool, pnr: Pnr, id: string) {
    function Key(): Key { SessionKey(id) }
  }

  datatype CreatePlan =
    | CreateStop(local: Local, outcome: Outcome)
    | CreateCall(local: Local, amount: nat)

  function PlanCreate(l: Local, req: SessionRequest): CreatePlan {
    if !req.confirmed then CreateStop(l, Raised(ConfirmationRequired))
    else if req.pnr !in l.db.bookings then CreateStop(l, Raised(BookingNotFound))
    else
      var booking := l.db.bookings[req.pnr];
      if booking.status.Cancelled? then CreateStop(l, Raised(BookingNotPayable))
      else if booking.payment.Paid? || booking.payment.Refunded? then
        CreateStop(l, Raised(PaymentAlreadyCompleted))
      else if booking.payment.PaymentPending? && Open(l.db.payments, req.pnr).Some? then
        CreateStop(l, GotPayment(Open(l.db.payments, req.pnr).value))
      else
        var (entries, cached) := Begin(l.entries, req.Key());
        match ReplayPayment(l.db, cached)
        case Some(outcome) => CreateStop(l, outcome)
        case None => CreateCall(l.(entries := entries), booking.totalPrice)
  }

  /** What a cached entry makes a call return before it does any work; None means carry on,
      which is also what happens when the stored payment row no longer exists. */
  function ReplayPayment(db: Tables, cached: Option<Stored>): Option<Outcome> {
    match cached
    case None => None
    case Some(InProgress) => Some(Raised(RequestInProgress))
    case Some(Completed(PaymentRef(i))) => if i < |db.payments| then Some(GotPayment(i)) else None
    case Some(Completed(_)) => Some(Raised(MalformedStoredResult))
  }

  function NewPayment(req: SessionRequest, amount: nat, sessionId: nat, intent: Option<nat>): Payment {
    Payment(req.pnr, req.Key(), sessionId, intent, Pending, amount, None, None, None)
  }

  function FinishCreate(l: Local, req: SessionRequest, amount: nat, answer: SessionAnswer): (Local, Outcome)
    requires req.pnr in l.db.bookings
  {
    match answer
    case SessionRaised => (l.(entries := l.entries - {req.Key()}), Raised(ProviderFailed))
    case SessionCreated(sessionId, intent) =>
      var p := NewPayment(req, amount, sessionId, intent);
      if ViolatesUnique(l.db.payments, p) then
        (l.(entries := l.entries - {req.Key()}), Raised(DatabaseRejected))
      else
        var booking := l.db.bookings[req.pnr];
        (Local(Tables(l.db.bookings[req.pnr := booking.(payment := PaymentPending)], l.db.payments + [p]),
               l.entries[req.Key() := Completed(PaymentRef(|l.db.payments|))]),
         GotPayment(|l.db.payments|))
  }

  function CreateSession(l: Local, req: SessionRequest, answer: SessionAnswer): (r: (Local, Outcome))
    ensures ForeignKeys(l.db) ==> ForeignKeys(r.0.db)
  {
    match PlanCreate(l, req)
    case CreateStop(l', outcome) => (l', outcome)
    case CreateCall(l', amount) => FinishCreate(l', req, amount, answer)
  }

  // ------------------------------------------------------------ refund

  datatype RefundRequest = RefundRequest(confirmed: bool, pnr: Pnr, amount: Option<int>, id: string) {
    function Key(): Key { RefundKey(id) }
  }

  datatype RefundPlan =
    | RefundStop(local: Local, outcome: Outcome)
    | RefundCall(local: Local, index: nat, intent: nat, amount: int)

  /** `apply_refund_outcome`: `result` is None when nothing was sent to the provider. */
  function ApplyRefund(db: Tables, i: nat, result: Option<RefundResult>, amount: int, closes: bool): Tables
    requires i < |db.payments| && db.payments[i].pnr in db.bookings
  {
    var p := db.payments[i];
    var p' := match result
      case None => p.(refunded := Some(RefundedOf(p) + amount), refundStatus := Some(RefundSucceeded))
      case Some(r) => p.(refunded := Some(RefundedOf(p) + r.amount), refundStatus := Some(r.status),
                         refundId := Some(r.refundId));
    var booking := db.bookings[p.pnr];
    var booking' := if closes && (result.None? || result.value.status.RefundSucceeded?)
                    then booking.(payment := Refunded) else booking;
    Tables(db.bookings[p.pnr := booking'], db.payments[i := p'])
  }

  function PlanRefund(l: Local, req: RefundRequest): RefundPlan {
    if !req.confirmed then RefundStop(l, Raised(ConfirmationRequired))
    else if req.pnr !in l.db.bookings then RefundStop(l, Raised(BookingNotFound))
    else if l.db.bookings[req.pnr].payment.Refunded? then RefundStop(l, Raised(PaymentAlreadyRefunded))
    else match Latest(l.db.payments, req.pnr)
         case None => RefundStop(l, Raised(PaymentNotRefundable))
         case Some(i) =>
           var p := l.db.payments[i];
           if !p.status.Succeeded? || p.intent.None? then RefundStop(l, Raised(PaymentNotRefundable))
           else
             var remaining := p.amount - RefundedOf(p);
             var amount := req.amount.GetOr(remaining);
             if amount <= 0 || amount > remaining then RefundStop(l, Raised(InvalidRefundAmount))
             else
               var (entries, cached) := Begin(l.entries, req.Key());
               match ReplayPayment(l.db, cached)
               case Some(outcome) => RefundStop(l, outcome)
               case None => RefundCall(l.(entries := entries), i, p.intent.value, amount)
  }

  function FinishRefund(l: Local, req: RefundRequest, i: nat, amount: int, answer: RefundAnswer): (Local, Outcome)
    requires i < |l.db.payments| && l.db.payments[i].pnr in l.db.bookings
  {
    match answer
    case RefundRaised => (l.(entries := l.entries - {req.Key()}), Raised(ProviderFailed))
    case RefundAnswered(result) =>
      var p := l.db.payments[i];
      var db := ApplyRefund(l.db, i, Some(result), amount, RefundedOf(p) + amount >= p.amount);
      if result.status.RefundFailed? || result.status.RefundCanceled? then
        (Local(db, l.entries - {req.Key()}), Raised(RefundNotCompleted(result.status)))
      else
        (Local(db, l.entries[req.Key() := Completed(PaymentRef(i))]), GotPayment(i))
  }

  // ------------------------------------------------------------ cancel

  datatype CancelRequest = CancelRequest(confirmed: bool, pnr: Pnr, id: string) {
    function Key(): Key { CancelKey(id) }
    function RefundKey(): Key { CancelRefundKey(id) }
  }

  datatype AirlineAnswer<T> = AirlineRaised | AirlineDone(value: T)

  datatype CancelPlan =
    | CancelStop(local: Local, outcome: Outcome)
    | CancelCommit(local: Local)
    | CancelCall(local: Local, index: nat, intent: nat, amount: int)

  /** `airline` carries the amount the airline says is refundable. */
  function PlanCancel(l: Local, req: CancelRequest, airline: AirlineAnswer<int>): CancelPlan {
    if !req.confirmed then CancelStop(l, Raised(ConfirmationRequired))
    else if req.pnr !in l.db.bookings then CancelStop(l, Raised(BookingNotFound))
    else
      var booking := l.db.bookings[req.pnr];
      if booking.status.Cancelled? then CancelStop(l, GotBooking(true))
      else
        var (entries, cached) := Begin(l.entries, req.Key());
        if cached.Some? && cached.value.Completed? then CancelStop(l, GotBooking(false))
        else match airline
             case AirlineRaised => CancelStop(l.(entries := entries - {req.Key()}), Raised(ProviderFailed))
             case AirlineDone(refundable) =>
               var db := l.db.(bookings := l.db.bookings[req.pnr := booking.(status := Cancelled)]);
               PlanCloseOut(Local(db, entries), req.pnr, booking.payment, refundable)
  }

  /** The refund branch of `cancel`, entered once the airline has cancelled: capped at what
      is left of the payment, skipped when nothing is refundable. */
  function PlanCloseOut(l: Local, pnr: Pnr, payment: BookingPayment, refundable: int): CancelPlan
    requires pnr in l.db.bookings
  {
    match Latest(l.db.payments, pnr)
    case None => CancelCommit(l)
    case Some(i) =>
      var p := l.db.payments[i];
      if !payment.Paid? || !p.status.Succeeded? || p.intent.None? then CancelCommit(l)
      else
        var remaining := p.amount - RefundedOf(p);
        var amount := if refundable > remaining then remaining else refundable;
        if amount <= 0 then CancelCommit(l.(db := ApplyRefund(l.db, i, None, 0, true)))
        else CancelCall(l, i, p.intent.value, amount)
  }

  /** A provider that refuses the refund leaves the payment as it was. */
  function AfterCancelRefund(l: Local, i: nat, amount: int, answer: RefundAnswer): Local
    requires i < |l.db.payments| && l.db.payments[i].pnr in l.db.bookings
  {
    match answer
    case RefundRaised => l
    case RefundAnswered(result) => l.(db := ApplyRefund(l.db, i, Some(result), amount, true))
  }

  function CommitCancel(l: Local, req: CancelRequest): (Local, Outcome) {
    (l.(entries := l.entries[req.Key() := Completed(BookingRef(req.pnr))]), GotBooking(false))
  }

  function FinishCancel(l: Local, req: CancelRequest, i: nat, amount: int, answer: RefundAnswer): (Local, Outcome)
    requires i < |l.db.payments| && l.db.payments[i].pnr in l.db.bookings
  {
    CommitCancel(AfterCancelRefund(l, i, amount, answer), req)
  }

  // ------------------------------------------------------------ webhook

  datatype WebhookEvent = WebhookEvent(
    id: string,
    kind: EventType,
    session: Option<nat>,
    intent: Option<nat>,
    paid: Option<bool>)

  function Webhook(l: Local, event: WebhookEvent): (r: (Local, Outcome))
    requires ForeignKeys(l.db)
    ensures ForeignKeys(r.0.db)
  {
    var key := EventKey(event.id);
    if key in l.entries then (l, DuplicateEvent)
    else
      var l' := l.(entries := l.entries[key := Completed(EventOutcome)]);
      if !IsRelevant(event.kind) then (l', IrrelevantEvent)
      else
        var found := if event.session.Some? then BySession(l.db.payments, event.session.value) else None;
        match found
        case None => (l', UnmatchedSession)
        case Some(i) =>
          var p := l.db.payments[i];
          var next := NewStatusFor(event.kind, event.paid);
          if next.None? || !CanTransition(p.status, next.value) then (l', NoTransition)
          else
            var p' := p.(status := next.value, intent := if event.intent.Some? then event.intent else p.intent);
            var booking := l.db.bookings[p.pnr].(payment := BookingPaymentFor(next.value));
            (l'.(db := Tables(l.db.bookings[p.pnr := booking], l.db.payments[i := p'])), Transitioned(next.value))
  }

  // ------------------------------------------------------------ bookings

  datatype ModifyRequest = ModifyRequest(confirmed: bool, pnr: Pnr, newFlight: bool, newContact: bool)

  /** `airline` carries the total the airline reports after the change. */
  function Modify(l: Local, req: ModifyRequest, airline: AirlineAnswer<nat>): (Local, Outcome) {
    if !req.confirmed then (l, Raised(ConfirmationRequired))
    else if req.pnr !in l.db.bookings then (l, Raised(BookingNotFound))
    else
      var booking := l.db.bookings[req.pnr];
      if booking.status.Cancelled? then (l, Raised(BookingNotModifiable))
      else if !req.newFlight && !req.newContact then (l, Raised(NoChangesSpecified))
      else match airline
           case AirlineRaised => (l, Raised(ProviderFailed))
           case AirlineDone(total) =>
             var booking' := booking.(status := if req.newFlight then Modified else booking.status,
                                      totalPrice := total);
             (l.(db := l.db.(bookings := l.db.bookings[req.pnr := booking'])), GotBooking(false))
  }

  /** The row `create_booking` commits under a PNR that no booking has yet. */
  function AddBooking(l: Local, pnr: Pnr, totalPrice: nat): Local {
    if pnr in l.db.bookings then l
    else l.(db := l.db.(bookings := l.db.bookings[pnr := Booking(Confirmed, Unpaid, totalPrice)]))
  }
}
