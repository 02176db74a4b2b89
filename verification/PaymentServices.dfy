/** The services as they run: one database session, one deduplication store and one
    provider, all updated in place (app/services/payment_service.py,
    app/services/cancellation_service.py, app/services/booking_service.py). Every method is
    proved to do what the step functions say, and to leave nothing uncommitted behind. */
module PaymentServices {
  import opened Wrappers
  import opened SessionStateMachine
  import opened Idempotency
  import opened PaymentTables
  import opened PaymentProvider
  import opened PaymentSteps

  datatype System = System(local: Local, mock: MockState)

  function CreateOnMock(s: System, req: SessionRequest): (r: (System, Outcome))
    requires MockValid(s.mock)
    ensures MockValid(r.0.mock) && (ForeignKeys(s.local.db) ==> ForeignKeys(r.0.local.db))
  {
    match PlanCreate(s.local, req)
    case CreateStop(l, outcome) => (s.(local := l), outcome)
    case CreateCall(l, amount) =>
      var (mock, answer) := MockCreateSession(s.mock, req.Key(), amount);
      var (l', outcome) := FinishCreate(l, req, amount, answer);
      (System(l', mock), outcome)
  }

  function RefundOnMock(s: System, req: RefundRequest): (r: (System, Outcome))
    requires ForeignKeys(s.local.db)
    ensures ForeignKeys(r.0.local.db) && (MockValid(s.mock) ==> MockValid(r.0.mock))
  {
    match PlanRefund(s.local, req)
    case RefundStop(l, outcome) => (s.(local := l), outcome)
    case RefundCall(l, i, intent, amount) =>
      var (mock, answer) := MockRefund(s.mock, intent, amount, req.Key());
      var (l', outcome) := FinishRefund(l, req, i, amount, answer);
      (System(l', mock), outcome)
  }

  function CancelOnMock(s: System, req: CancelRequest, airline: AirlineAnswer<int>): (r: (System, Outcome))
    ensures MockValid(s.mock) ==> MockValid(r.0.mock)
    ensures ForeignKeys(s.local.db) ==> ForeignKeys(r.0.local.db)
  {
    match PlanCancel(s.local, req, airline)
    case CancelStop(l, outcome) => (s.(local := l), outcome)
    case CancelCommit(l) => var (l', outcome) := CommitCancel(l, req); (s.(local := l'), outcome)
    case CancelCall(l, i, intent, amount) =>
      var (mock, answer) := MockRefund(s.mock, intent, amount, req.RefundKey());
      var (l', outcome) := FinishCancel(l, req, i, amount, answer);
      (System(l', mock), outcome)
  }

  class PaymentService {
    const db: Database
    const idempotency: InMemoryIdempotencyStore
    const provider: MockPaymentProvider

    ghost predicate Valid()
      reads db, provider
    {
      db.Clean() && ForeignKeys(db.Working()) && provider.Valid()
    }

    function LocalState(): Local
      reads db, idempotency
    {
      Local(db.Working(), idempotency.entries)
    }

    function State(): System
      reads db, idempotency, provider
    {
      System(LocalState(), provider.State())
    }

    constructor (db: Database, idempotency: InMemoryIdempotencyStore, provider: MockPaymentProvider)
      ensures this.db == db && this.idempotency == idempotency && this.provider == provider
    {
      this.db, this.idempotency, this.provider := db, idempotency, provider;
    }

    method CreatePaymentSession(req: SessionRequest) returns (outcome: Outcome)
      requires Valid()
      modifies db, idempotency, provider
      ensures Valid()
      ensures (State(), outcome) == CreateOnMock(old(State()), req)
    {
      if !req.confirmed {
        return Raised(ConfirmationRequired);
      }
      if req.pnr !in db.bookings {
        return Raised(BookingNotFound);
      }
      var booking := db.bookings[req.pnr];
      if booking.status.Cancelled? {
        return Raised(BookingNotPayable);
      }
      if BlocksNewSession(booking.payment) {
        if booking.payment.Paid? {
          return Raised(PaymentAlreadyCompleted);
        }
        if booking.payment.Refunded? {
          return Raised(PaymentAlreadyCompleted);
        }
        var existing := Open(db.payments, req.pnr);
        if existing.Some? {
          return GotPayment(existing.value);
        }
      }
      var cached := idempotency.BeginKey(req.Key());
      if cached.Some? {
        var replay := ReplayPayment(db.Working(), cached);
        if replay.Some? {
          return replay.value;
        }
      }
      var amount := booking.totalPrice;
      // The mock never raises here; a provider that does is covered by FinishCreate.
      var session := provider.CreateCheckoutSession(req.Key(), amount);
      var index := |db.payments|;
      var stored := db.AddPayment(NewPayment(req, amount, session.sessionId, session.intent));
      if !stored {
        db.Rollback();
        idempotency.Fail(req.Key());
        return Raised(DatabaseRejected);
      }
      db.bookings := db.bookings[req.pnr := booking.(payment := PaymentPending)];
      db.Commit();
      idempotency.Complete(req.Key(), PaymentRef(index));
      return GotPayment(index);
    }

    /** Changes the rows in place; committing stays the caller's job. */
    method ApplyRefundOutcome(i: nat, result: Option<RefundResult>, amount: int, closes: bool)
      requires i < |db.payments| && db.payments[i].pnr in db.bookings
      modifies db
      ensures db.Working() == ApplyRefund(old(db.Working()), i, result, amount, closes)
      ensures db.committed == old(db.committed)
    {
      var p := db.payments[i];
      if result.None? {
        p := p.(refunded := Some(RefundedOf(p) + amount), refundStatus := Some(RefundSucceeded));
      } else {
        p := p.(refundId := Some(result.value.refundId));
        p := p.(refunded := Some(RefundedOf(p) + result.value.amount), refundStatus := Some(result.value.status));
      }
      db.payments := db.payments[i := p];
      var booking := db.bookings[p.pnr];
      if closes && (result.None? || result.value.status.RefundSucceeded?) {
        booking := booking.(payment := Refunded);
      }
      db.bookings := db.bookings[p.pnr := booking];
    }

    method RefundPayment(req: RefundRequest) returns (outcome: Outcome)
      requires Valid()
      modifies db, idempotency, provider
      ensures Valid()
      ensures (State(), outcome) == RefundOnMock(old(State()), req)
    {
      if !req.confirmed {
        return Raised(ConfirmationRequired);
      }
      if req.pnr !in db.bookings {
        return Raised(BookingNotFound);
      }
      if db.bookings[req.pnr].payment.Refunded? {
        return Raised(PaymentAlreadyRefunded);
      }
      var latest := Latest(db.payments, req.pnr);
      if latest.None? {
        return Raised(PaymentNotRefundable);
      }
      var i := latest.value;
      var p := db.payments[i];
      if !p.status.Succeeded? || p.intent.None? {
        return Raised(PaymentNotRefundable);
      }
      var alreadyRefunded := RefundedOf(p);
      var remaining := p.amount - alreadyRefunded;
      var amount := if req.amount.Some? then req.amount.value else remaining;
      if amount <= 0 || amount > remaining {
        return Raised(InvalidRefundAmount);
      }
      var cached := idempotency.BeginKey(req.Key());
      if cached.Some? {
        var replay := ReplayPayment(db.Working(), cached);
        if replay.Some? {
          return replay.value;
        }
      }
      outcome := SendRefund(req, i, p.intent.value, amount);
    }

    /** The part of `refund_payment` from the provider call on. */
    method SendRefund(req: RefundRequest, i: nat, intent: nat, amount: int) returns (outcome: Outcome)
      requires Valid() && i < |db.payments|
      modifies db, idempotency, provider
      ensures Valid()
      ensures
        var (mock, answer) := MockRefund(old(provider.State()), intent, amount, req.Key());
        provider.State() == mock && (LocalState(), outcome) == FinishRefund(old(LocalState()), req, i, amount, answer)
    {
      var p := db.payments[i];
      var alreadyRefunded := RefundedOf(p);
      var answer := provider.RefundPayment(intent, amount, req.Key());
      if answer.RefundRaised? {
        db.Rollback();
        idempotency.Fail(req.Key());
        return Raised(ProviderFailed);
      }
      var completesFullAmount := alreadyRefunded + amount >= p.amount;
      ApplyRefundOutcome(i, Some(answer.result), amount, completesFullAmount);
      db.Commit();
      if answer.result.status.RefundFailed? || answer.result.status.RefundCanceled? {
        idempotency.Fail(req.Key());
        return Raised(RefundNotCompleted(answer.result.status));
      }
      idempotency.Complete(req.Key(), PaymentRef(i));
      return GotPayment(i);
    }

    method HandleWebhookEvent(event: WebhookEvent) returns (outcome: Outcome)
      requires Valid()
      modifies db, idempotency
      ensures Valid() && provider.State() == old(provider.State())
      ensures (LocalState(), outcome) == Webhook(old(LocalState()), event)
    {
      var key := EventKey(event.id);
      var seen := idempotency.BeginKey(key);
      if seen.Some? {
        return DuplicateEvent;
      }
      assert idempotency.entries[key := Completed(EventOutcome)] ==
          old(idempotency.entries)[key := Completed(EventOutcome)];
      if !IsRelevant(event.kind) {
        idempotency.Complete(key, EventOutcome);
        return IrrelevantEvent;
      }
      var found := if event.session.Some? then BySession(db.payments, event.session.value) else None;
      if found.None? {
        db.Commit();
        idempotency.Complete(key, EventOutcome);
        return UnmatchedSession;
      }
      var p := db.payments[found.value];
      var next := NewStatusFor(event.kind, event.paid);
      if next.None? || !CanTransition(p.status, next.value) {
        idempotency.Complete(key, EventOutcome);
        return NoTransition;
      }
      p := p.(status := next.value);
      if event.intent.Some? {
        p := p.(intent := event.intent);
      }
      db.payments := db.payments[found.value := p];
      var booking := db.bookings[p.pnr];
      db.bookings := db.bookings[p.pnr := booking.(payment := BookingPaymentFor(next.value))];
      db.Commit();
      idempotency.Complete(key, EventOutcome);
      return Transitioned(next.value);
    }
  }

  class CancellationService {
    const payments: PaymentService

    constructor (payments: PaymentService)
      ensures this.payments == payments
    {
      this.payments := payments;
    }

    /** `airline` is the airline provider's reply to cancelling the booking. */
    method Cancel(req: CancelRequest, airline: AirlineAnswer<int>) returns (outcome: Outcome)
      requires payments.Valid()
      modifies payments.db, payments.idempotency, payments.provider
      ensures payments.Valid()
      ensures (payments.State(), outcome) == CancelOnMock(old(payments.State()), req, airline)
    {
      var db := payments.db;
      if !req.confirmed {
        return Raised(ConfirmationRequired);
      }
      if req.pnr !in db.bookings {
        return Raised(BookingNotFound);
      }
      var booking := db.bookings[req.pnr];
      if booking.status.Cancelled? {
        return GotBooking(true);
      }
      var cached := payments.idempotency.BeginKey(req.Key());
      if cached.Some? && cached.value.Completed? {
        return GotBooking(false);
      }
      if airline.AirlineRaised? {
        db.Rollback();
        payments.idempotency.Fail(req.Key());
        return Raised(ProviderFailed);
      }
      db.bookings := db.bookings[req.pnr := booking.(status := Cancelled)];
      CloseOutPayment(req, booking.payment, airline.value);
      db.Commit();
      payments.idempotency.Complete(req.Key(), BookingRef(req.pnr));
      return GotBooking(false);
    }

    /** The refund branch of `cancel`: capped at what is left, and never raising. */
    method CloseOutPayment(req: CancelRequest, payment: BookingPayment, refundable: int)
      requires payments.provider.Valid() && ForeignKeys(payments.db.Working()) && req.pnr in payments.db.bookings
      modifies payments.db, payments.provider
      ensures payments.provider.Valid() && ForeignKeys(payments.db.Working())
      ensures (payments.LocalState(), payments.provider.State()) ==
        match PlanCloseOut(old(payments.LocalState()), req.pnr, payment, refundable)
        case CancelStop(l, _) => (l, old(payments.provider.State()))
        case CancelCommit(l) => (l, old(payments.provider.State()))
        case CancelCall(l, i, intent, amount) =>
          var (mock, answer) := MockRefund(old(payments.provider.State()), intent, amount, req.RefundKey());
          (AfterCancelRefund(l, i, amount, answer), mock)
    {
      var db := payments.db;
      if !payment.Paid? {
        return;
      }
      var latest := Latest(db.payments, req.pnr);
      if latest.None? {
        return;
      }
      var i := latest.value;
      var p := db.payments[i];
      if !p.status.Succeeded? || p.intent.None? {
        return;
      }
      var alreadyRefunded := RefundedOf(p);
      var remaining := p.amount - alreadyRefunded;
      var amount := refundable;
      if amount > remaining {
        amount := remaining;
      }
      if amount <= 0 {
        payments.ApplyRefundOutcome(i, None, 0, true);
      } else {
        var answer := payments.provider.RefundPayment(p.intent.value, amount, req.RefundKey());
        if answer.RefundAnswered? {
          payments.ApplyRefundOutcome(i, Some(answer.result), amount, true);
        }
      }
    }
  }

  class BookingService {
    const db: Database

    constructor (db: Database)
      ensures this.db == db
    {
      this.db := db;
    }

    /** `airline` is the airline provider's reply to the requested change. */
    method ModifyBooking(req: ModifyRequest, airline: AirlineAnswer<nat>) returns (outcome: Outcome)
      requires db.Clean()
      modifies db
      ensures db.Clean()
      ensures forall entries ::
        var (l, o) := Modify(Local(old(db.Working()), entries), req, airline);
        l == Local(db.Working(), entries) && o == outcome
    {
      if !req.confirmed {
        return Raised(ConfirmationRequired);
      }
      if req.pnr !in db.bookings {
        return Raised(BookingNotFound);
      }
      var booking := db.bookings[req.pnr];
      if booking.status.Cancelled? {
        return Raised(BookingNotModifiable);
      }
      if !req.newFlight && !req.newContact {
        return Raised(NoChangesSpecified);
      }
      if airline.AirlineRaised? {
        db.Rollback();
        return Raised(ProviderFailed);
      }
      booking := booking.(totalPrice := airline.value);
      if req.newFlight {
        booking := booking.(status := Modified);
      }
      db.bookings := db.bookings[req.pnr := booking];
      db.Commit();
      return GotBooking(false);
    }
  }
}
