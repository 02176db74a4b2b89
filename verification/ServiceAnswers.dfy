/** What each call answers, and the one reason behind every error. */
module ServiceAnswers {
  import opened Wrappers
  import opened SessionStateMachine
  import opened Idempotency
  import opened PaymentTables
  import opened PaymentProvider
  import opened PaymentSteps
  import opened PaymentRuns
  import opened PaymentTheorems
  import opened PaymentRetries
  import opened RememberedKeys

  // ------------------------------------------------------------ errors

  /** Why a request for a session raises an error, by the state it is made in. */
  predicate StartReason(l: Local, req: SessionRequest, answer: SessionAnswer, error: Error) {
    var known, sent := req.confirmed && req.pnr in l.db.bookings, OpenToSession(l.db, req) && req.Key() !in l.entries;
    match error
    case ConfirmationRequired => !req.confirmed
    case BookingNotFound => req.confirmed && req.pnr !in l.db.bookings
    case BookingNotPayable => known && l.db.bookings[req.pnr].status.Cancelled?
    case PaymentAlreadyCompleted =>
      && known && !l.db.bookings[req.pnr].status.Cancelled?
      && (l.db.bookings[req.pnr].payment.Paid? || l.db.bookings[req.pnr].payment.Refunded?)
    case ProviderFailed => sent && answer.SessionRaised?
    case DatabaseRejected =>
      sent && answer.SessionCreated? && exists p :: p in l.db.payments && p.sessionId == answer.sessionId
    case _ => false
  }

  predicate RefundReason(l: Local, req: RefundRequest, reply: RefundReply, error: Error) {
    var known, sent := req.confirmed && req.pnr in l.db.bookings, OpenToRefund(l.db, req) && req.Key() !in l.entries;
    match error
    case ConfirmationRequired => !req.confirmed
    case BookingNotFound => req.confirmed && req.pnr !in l.db.bookings
    case PaymentAlreadyRefunded => known && l.db.bookings[req.pnr].payment.Refunded?
    case PaymentNotRefundable =>
      known && !l.db.bookings[req.pnr].payment.Refunded? && !HasCapturedPayment(l.db, req.pnr)
    case InvalidRefundAmount => known && HasCapturedPayment(l.db, req.pnr) && !StillRefundable(l.db, req)
    case ProviderFailed => sent && reply.RefundRefused?
    case RefundNotCompleted(status) => sent && Rejects(reply) && reply.status == status
    case _ => false
  }

  predicate CancelReason(l: Local, req: CancelRequest, airline: AirlineAnswer<int>, error: Error) {
    match error
    case ConfirmationRequired => !req.confirmed
    case BookingNotFound => req.confirmed && req.pnr !in l.db.bookings
    case ProviderFailed =>
      && req.confirmed && req.pnr in l.db.bookings && !l.db.bookings[req.pnr].status.Cancelled?
      && req.Key() !in l.entries && airline.AirlineRaised?
    case _ => false
  }

  predicate ModifyReason(l: Local, req: ModifyRequest, change: AirlineAnswer<nat>, error: Error) {
    var known := req.confirmed && req.pnr in l.db.bookings;
    match error
    case ConfirmationRequired => !req.confirmed
    case BookingNotFound => req.confirmed && req.pnr !in l.db.bookings
    case BookingNotModifiable => known && l.db.bookings[req.pnr].status.Cancelled?
    case NoChangesSpecified =>
      known && !l.db.bookings[req.pnr].status.Cancelled? && !req.newFlight && !req.newContact
    case ProviderFailed =>
      && known && !l.db.bookings[req.pnr].status.Cancelled? && (req.newFlight || req.newContact)
      && change.AirlineRaised?
    case _ => false
  }

  predicate IsReason(l: Local, step: Step, error: Error) {
    match step
    case StartSession(req, answer) => StartReason(l, req, answer, error)
    case StaffRefund(req, reply) => RefundReason(l, req, reply, error)
    case CancelBooking(req, airline, _) => CancelReason(l, req, airline, error)
    case ModifyBooking(req, change) => ModifyReason(l, req, change, error)
    case _ => false
  }

  /** A known key replays a payment: its entry is completed, and with a payment. */
  lemma KnownKeyReplays(l: Local, key: Key)
    requires EntriesValid(l) && key in l.entries && (key.SessionKey? || key.RefundKey?)
    ensures ReplayPayment(l.db, Some(l.entries[key])) == Some(GotPayment(l.entries[key].result.index))
  {
    assert EntryValid(l.db.payments, key, l.entries[key]);
  }

  lemma StoppedStartRaises(l: Local, req: SessionRequest, answer: SessionAnswer, error: Error)
    requires PlanCreate(l, req).CreateStop?
    requires req.Key() in l.entries ==>
      var replay := ReplayPayment(l.db, Some(l.entries[req.Key()])); replay.Some? && replay.value.GotPayment?
    requires req.pnr in l.db.bookings && l.db.bookings[req.pnr].payment.PaymentPending? ==>
      Open(l.db.payments, req.pnr).Some?
    ensures PlanCreate(l, req).outcome == Raised(error) <==> StartReason(l, req, answer, error)
  {
  }

  lemma SentStartRaises(l: Local, req: SessionRequest, answer: SessionAnswer, error: Error)
    requires Valid(l) && OpenToSession(l.db, req) && req.Key() !in l.entries
    ensures
      var sent := l.(entries := l.entries[req.Key() := InProgress]);
      FinishCreate(sent, req, l.db.bookings[req.pnr].totalPrice, answer).1 == Raised(error) <==>
      StartReason(l, req, answer, error)
  {
    if answer.SessionCreated? { FreshUnlessSessionTaken(l, req, answer); }
  }

  lemma StartRaisesExactlyWhen(l: Local, req: SessionRequest, answer: SessionAnswer, error: Error)
    requires Valid(l)
    ensures CreateSession(l, req, answer).1 == Raised(error) <==> StartReason(l, req, answer, error)
  {
    if PlanCreate(l, req).CreateCall? {
      SessionIsSentExactlyWhen(l, req);
      SentSessionIsNew(l, req);
      StartIsAdmissible(l, req);
      SentStartRaises(l, req, answer, error);
    } else {
      if req.Key() in l.entries { KnownKeyReplays(l, req.Key()); }
      if req.pnr in l.db.bookings && l.db.bookings[req.pnr].payment.PaymentPending? {
        PendingBookingHasOpenPayment(l.db, req.pnr);
      }
      StoppedStartRaises(l, req, answer, error);
    }
  }

  lemma StoppedRefundRaises(l: Local, req: RefundRequest, reply: RefundReply, error: Error)
    requires PlanRefund(l, req).RefundStop?
    requires req.Key() in l.entries ==>
      var replay := ReplayPayment(l.db, Some(l.entries[req.Key()])); replay.Some? && replay.value.GotPayment?
    requires req.pnr in l.db.bookings ==> FollowsLatest(l.db, req.pnr)
    ensures PlanRefund(l, req).outcome == Raised(error) <==> RefundReason(l, req, reply, error)
  {
  }

  lemma SentRefundRaises(l: Local, req: RefundRequest, reply: RefundReply, error: Error)
    requires Valid(l) && OpenToRefund(l.db, req) && req.Key() !in l.entries
    ensures RefundStep(l, req, reply).1 == Raised(error) <==> RefundReason(l, req, reply, error)
  {
    RefundIsSentExactlyWhen(l, req);
  }

  lemma RefundRaisesExactlyWhen(l: Local, req: RefundRequest, reply: RefundReply, error: Error)
    requires Valid(l)
    ensures RefundStep(l, req, reply).1 == Raised(error) <==> RefundReason(l, req, reply, error)
  {
    RefundIsSentExactlyWhen(l, req);
    if PlanRefund(l, req).RefundCall? {
      SentRefundRaises(l, req, reply, error);
    } else {
      if req.Key() in l.entries { KnownKeyReplays(l, req.Key()); }
      if req.pnr in l.db.bookings { BookingFollowsLatest(l.db, req.pnr); }
      StoppedRefundRaises(l, req, reply, error);
    }
  }

  lemma CancelRaisesExactlyWhen(l: Local, req: CancelRequest, airline: AirlineAnswer<int>, reply: RefundReply,
                                error: Error)
    requires Valid(l)
    ensures CancelStep(l, req, airline, reply).1 == Raised(error) <==> CancelReason(l, req, airline, error)
  {
    if req.Key() in l.entries { assert EntryValid(l.db.payments, req.Key(), l.entries[req.Key()]); }
  }

  lemma ModifyRaisesExactlyWhen(l: Local, req: ModifyRequest, change: AirlineAnswer<nat>, error: Error)
    ensures Modify(l, req, change).1 == Raised(error) <==> ModifyReason(l, req, change, error)
  {
  }

  /** In every reached state and for every operation, each error is raised for its one reason and
      for no other; no call finds its key in progress or a stored result of the wrong kind. */
  lemma RaisedExactlyWhen(before: seq<Step>, step: Step, error: Error)
    ensures OutcomeOf(Run(EMPTY, before), step) == Raised(error) <==> IsReason(Run(EMPTY, before), step, error)
  {
    ReachedIsValid(before);
    var l := Run(EMPTY, before);
    match step
    case StartSession(req, answer) => StartRaisesExactlyWhen(l, req, answer, error);
    case StaffRefund(req, reply) => RefundRaisesExactlyWhen(l, req, reply, error);
    case CancelBooking(req, airline, reply) => CancelRaisesExactlyWhen(l, req, airline, reply, error);
    case ModifyBooking(req, change) => ModifyRaisesExactlyWhen(l, req, change, error);
    case _ =>
  }

  // ------------------------------------------------------------ webhooks

  predicate IsPaymentOf(db: Tables, i: nat, event: WebhookEvent) {
    i < |db.payments| && event.session == Some(db.payments[i].sessionId)
  }

  /** One delivery changes at most the payment of the event's session, by its status and by the
      intent that the event carries, and of that payment's booking only the payment status. */
  ghost predicate ChangesOnly(db: Tables, db': Tables, event: WebhookEvent) {
    && |db'.payments| == |db.payments| && db'.bookings.Keys == db.bookings.Keys
    && (forall i | 0 <= i < |db.payments| && db'.payments[i] != db.payments[i] ::
          && IsPaymentOf(db, i, event) && db'.payments[i].status != db.payments[i].status
          && db'.payments[i] == db.payments[i].(
               status := db'.payments[i].status,
               intent := if event.intent.Some? then event.intent else db.payments[i].intent))
    && (forall pnr | pnr in db.bookings ::
          && db'.bookings[pnr] == db.bookings[pnr].(payment := db'.bookings[pnr].payment)
          && (db'.bookings[pnr] != db.bookings[pnr] ==>
                exists i | 0 <= i < |db.payments| :: db.payments[i].pnr == pnr && IsPaymentOf(db, i, event)))
  }

  /** Every delivery is answered by what it did: a duplicate was seen before, an irrelevant event
      is of no known kind, an unmatched one names no payment's session, and a transition to a
      status is answered exactly when a payment has changed to it. */
  lemma DeliveryIsAnswered(l: Local, event: WebhookEvent)
    requires ForeignKeys(l.db)
    ensures
      var (l', outcome) := Webhook(l, event);
      && ChangesOnly(l.db, l'.db, event)
      && (outcome == DuplicateEvent <==> EventKey(event.id) in l.entries)
      && (outcome == IrrelevantEvent <==> EventKey(event.id) !in l.entries && event.kind.OtherEvent?)
      && (outcome == UnmatchedSession <==>
            && EventKey(event.id) !in l.entries && !event.kind.OtherEvent?
            && forall i :: !IsPaymentOf(l.db, i, event))
      && (forall status :: outcome == Transitioned(status) <==> SomeBecomes(l.db, l'.db, status))
      && !outcome.Raised?
  {
    DeliveryChangesOnly(l, event);
    DeliveryTransitions(l, event);
    if event.session.Some? && BySession(l.db.payments, event.session.value).Some? {
      assert IsPaymentOf(l.db, BySession(l.db.payments, event.session.value).value, event);
    }
  }

  ghost predicate SomeBecomes(db: Tables, db': Tables, status: SessionStatus) {
    exists i | 0 <= i < |db.payments| && i < |db'.payments| ::
      db'.payments[i].status == status && db.payments[i].status != status
  }

  lemma DeliveryChangesOnly(l: Local, event: WebhookEvent)
    requires ForeignKeys(l.db)
    ensures ChangesOnly(l.db, Webhook(l, event).0.db, event)
  {
  }

  lemma DeliveryTransitions(l: Local, event: WebhookEvent)
    requires ForeignKeys(l.db)
    ensures forall status ::
      Webhook(l, event).1 == Transitioned(status) <==> SomeBecomes(l.db, Webhook(l, event).0.db, status)
  {
    var (l', outcome) := Webhook(l, event);
    if outcome.Transitioned? {
      var i := BySession(l.db.payments, event.session.value).value;
      assert l'.db.payments[i].status == outcome.status && l.db.payments[i].status != outcome.status;
    }
  }

  /** What the events mean for a payment that is still open. */
  function MeansFor(status: SessionStatus, event: WebhookEvent): SessionStatus {
    match event.kind
    case SessionCompleted =>
      if event.paid == Some(true) then Succeeded else Processing
    case SessionExpired => if status.Pending? then Expired else status
    case AsyncPaymentSucceeded => Succeeded
    case AsyncPaymentFailed => Failed
    case OtherEvent(_) => status
  }

  /** Delivered under a new id, a paid completion or an asynchronous success makes an open payment
      succeed, an unpaid completion makes it processing, an asynchronous failure makes it fail, and
      an expiry makes it expire unless it is processing; a terminal payment stays as it is. */
  lemma DeliveryMeans(before: seq<Step>, event: WebhookEvent, i: nat)
    requires IsPaymentOf(Run(EMPTY, before).db, i, event) && EventKey(event.id) !in Run(EMPTY, before).entries
    ensures
      var l := Run(EMPTY, before);
      var status := l.db.payments[i].status;
      && i < |Webhook(l, event).0.db.payments|
      && Webhook(l, event).0.db.payments[i].status == if IsTerminal(status) then status else MeansFor(status, event)
  {
    ReachedIsValid(before);
    SessionNamesPayment(Run(EMPTY, before).db, i);
    OpenPaymentIsMeant(Run(EMPTY, before), event, i);
  }

  lemma OpenPaymentIsMeant(l: Local, event: WebhookEvent, i: nat)
    requires ForeignKeys(l.db) && IsPaymentOf(l.db, i, event) && EventKey(event.id) !in l.entries
    requires BySession(l.db.payments, l.db.payments[i].sessionId) == Some(i)
    ensures
      var status := l.db.payments[i].status;
      && i < |Webhook(l, event).0.db.payments|
      && Webhook(l, event).0.db.payments[i].status == if IsTerminal(status) then status else MeansFor(status, event)
  {
  }

  lemma SessionNamesPayment(db: Tables, i: nat)
    requires UniqueRows(db.payments) && i < |db.payments|
    ensures BySession(db.payments, db.payments[i].sessionId) == Some(i)
  {
  }

  const UNPAID_COMPLETION := Deliver(WebhookEvent("e", SessionCompleted, Some(0), Some(7), Some(false)))
  const LATE_SUCCESS := Deliver(WebhookEvent("f", AsyncPaymentSucceeded, Some(0), None, None))

  const PROCESSING_STATE := Local(
    Tables(map["P" := Booking(Confirmed, PaymentPending, 100)],
           [Payment("P", SessionKey("a"), 0, Some(7), Processing, 100, None, None, None)]),
    OPEN_STATE.entries[EventKey("e") := Completed(EventOutcome)])

  /** A run in which a payment is completed first and captured later. */
  lemma AsynchronousPaymentSucceeds()
    ensures Next(Run(EMPTY, OPEN_BOOKING), UNPAID_COMPLETION) == PROCESSING_STATE
    ensures
      var l := Next(PROCESSING_STATE, LATE_SUCCESS);
      && l.db.bookings == map["P" := Booking(Confirmed, Paid, 100)]
      && l.db.payments == [PROCESSING_STATE.db.payments[0].(status := Succeeded)]
  {
    OpenStateIsReached();
    assert BySession(OPEN_STATE.db.payments, 0) == Some(0);
    assert BySession(PROCESSING_STATE.db.payments, 0) == Some(0);
  }
}
