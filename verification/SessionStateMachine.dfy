/** The lifecycle of one Checkout Session and its translation into a booking's
    payment status (app/core/payments/state_machine.py). */
module SessionStateMachine {
  import opened Wrappers

  datatype SessionStatus = Pending | Processing | Succeeded | Failed | Expired | Canceled

  datatype BookingPayment = Unpaid | PaymentPending | Paid | Refunded | PaymentFailed

  datatype EventType =
    | SessionCompleted
    | SessionExpired
    | AsyncPaymentSucceeded
    | AsyncPaymentFailed
    | OtherEvent(name: string)

  predicate CanTransition(current: SessionStatus, next: SessionStatus) {
    match current
    case Pending => next in {Processing, Succeeded, Failed, Expired, Canceled}
    case Processing => next in {Succeeded, Failed}
    case _ => false
  }

  predicate IsTerminal(status: SessionStatus) {
    status.Succeeded? || status.Failed? || status.Expired? || status.Canceled?
  }

  /** A pending session can become anything else, a processing one only a success or a failure; the
      terminal statuses are exactly those that lead nowhere. */
  lemma TransitionsAre(from: SessionStatus, to: SessionStatus)
    ensures CanTransition(Pending, to) <==> to != Pending
    ensures CanTransition(Processing, to) <==> to in {Succeeded, Failed}
    ensures CanTransition(from, to) ==> from != to
    ensures IsTerminal(from) <==> forall next :: !CanTransition(from, next)
  {
    if !IsTerminal(from) { assert CanTransition(from, Succeeded); }
  }

  function BookingPaymentFor(status: SessionStatus): BookingPayment {
    match status
    case Pending => PaymentPending
    case Processing => PaymentPending
    case Succeeded => Paid
    case Failed => PaymentFailed
    case Expired => Unpaid
    case Canceled => Unpaid
  }

  predicate BlocksNewSession(payment: BookingPayment) {
    payment.PaymentPending? || payment.Paid? || payment.Refunded?
  }

  predicate IsRelevant(event: EventType) {
    !event.OtherEvent?
  }

  /** `paid` is None when the event carries no payment status at all. */
  function NewStatusFor(event: EventType, paid: Option<bool>): Option<SessionStatus> {
    match event
    case SessionCompleted => if paid == Some(true) then Some(Succeeded) else Some(Processing)
    case AsyncPaymentSucceeded => Some(Succeeded)
    case AsyncPaymentFailed => Some(Failed)
    case SessionExpired => Some(Expired)
    case OtherEvent(_) => None
  }

  /** What one delivered event does to a session's status when nothing is deduplicated. */
  function Advance(status: SessionStatus, event: EventType, paid: Option<bool>): SessionStatus {
    var next := NewStatusFor(event, paid);
    if next.Some? && CanTransition(status, next.value) then next.value else status
  }
}
