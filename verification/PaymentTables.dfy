/** The bookings and payments tables, the queries over them, and the database session
    that holds uncommitted changes next to the committed rows (app/models/payment.py,
    app/models/booking.py, app/repositories/payment_repository.py). Money is integer cents. */
module PaymentTables {
  import opened Wrappers
  import opened SessionStateMachine
  import opened Idempotency

  type Pnr = string

  datatype BookingStatus = Confirmed | Modified | Cancelled

  datatype Booking = Booking(status: BookingStatus, payment: BookingPayment, totalPrice: nat)

  datatype RefundStatus = RefundPending | RequiresAction | RefundSucceeded | RefundFailed | RefundCanceled

  datatype Payment = Payment(
    pnr: Pnr,
    key: Key,
    sessionId: nat,
    intent: Option<nat>,
    status: SessionStatus,
    amount: nat,
    refunded: Option<int>,
    refundStatus: Option<RefundStatus>,
    refundId: Option<Key>)

  /** Payment rows are kept in creation order; a row's primary key is its position. */
  datatype Tables = Tables(bookings: map<Pnr, Booking>, payments: seq<Payment>)

  function RefundedOf(p: Payment): int {
    p.refunded.GetOr(0)
  }

  /** `get_latest_for_booking`: the newest row of a booking. */
  function Latest(rows: seq<Payment>, pnr: Pnr): (r: Option<nat>)
    ensures r.Some? ==> r.value < |rows| && rows[r.value].pnr == pnr && IsLatest(rows, r.value)
    ensures r.None? ==> forall i | 0 <= i < |rows| :: rows[i].pnr != pnr
  {
    if rows == [] then None
    else if rows[|rows| - 1].pnr == pnr then Some(|rows| - 1)
    else Latest(rows[..|rows| - 1], pnr)
  }

  ghost predicate IsLatest(rows: seq<Payment>, i: nat)
    requires i < |rows|
  {
    forall j | i < j < |rows| :: rows[j].pnr != rows[i].pnr
  }

  /** `get_open_for_booking`: the newest row of a booking that is not terminal. */
  function Open(rows: seq<Payment>, pnr: Pnr): (r: Option<nat>)
    ensures r.Some? ==> r.value < |rows| && rows[r.value].pnr == pnr && !IsTerminal(rows[r.value].status)
    ensures r.Some? ==> forall j | r.value < j < |rows| && rows[j].pnr == pnr :: IsTerminal(rows[j].status)
    ensures r.None? ==> forall i | 0 <= i < |rows| && rows[i].pnr == pnr :: IsTerminal(rows[i].status)
  {
    if rows == [] then None
    else if rows[|rows| - 1].pnr == pnr && !IsTerminal(rows[|rows| - 1].status) then Some(|rows| - 1)
    else Open(rows[..|rows| - 1], pnr)
  }

  /** `get_by_provider_session_id`: the column is UNIQUE, so at most one row matches. */
  function BySession(rows: seq<Payment>, sessionId: nat): (r: Option<nat>)
    ensures r.Some? ==> r.value < |rows| && rows[r.value].sessionId == sessionId
    ensures r.None? ==> forall i | 0 <= i < |rows| :: rows[i].sessionId != sessionId
  {
    if rows == [] then None
    else if rows[|rows| - 1].sessionId == sessionId then Some(|rows| - 1)
    else BySession(rows[..|rows| - 1], sessionId)
  }

  /** The UNIQUE constraints on idempotency_key and provider_session_id. */
  predicate ViolatesUnique(rows: seq<Payment>, p: Payment) {
    exists i | 0 <= i < |rows| :: rows[i].key == p.key || rows[i].sessionId == p.sessionId
  }

  /** The NOT NULL foreign key from payments to bookings. */
  ghost predicate ForeignKeys(t: Tables) {
    forall i | 0 <= i < |t.payments| :: t.payments[i].pnr in t.bookings
  }

  class Database {
    var bookings: map<Pnr, Booking>
    var payments: seq<Payment>
    var committed: Tables

    ghost predicate Clean()
      reads this
    {
      committed == Working()
    }

    function Working(): Tables
      reads this
    {
      Tables(bookings, payments)
    }

    constructor ()
      ensures Clean() && Working() == Tables(map[], [])
    {
      bookings := map[];
      payments := [];
      committed := Tables(map[], []);
    }

    method Commit()
      modifies this
      ensures Clean() && Working() == old(Working())
    {
      committed := Tables(bookings, payments);
    }

    method Rollback()
      modifies this
      ensures Clean() && Working() == old(committed)
    {
      bookings := committed.bookings;
      payments := committed.payments;
    }

    /** `PaymentRepository.add`: flushes the row, so a UNIQUE violation surfaces here. */
    method AddPayment(p: Payment) returns (stored: bool)
      modifies this
      ensures committed == old(committed)
      ensures stored <==> !ViolatesUnique(old(payments), p)
      ensures Working() == if stored then Tables(old(bookings), old(payments) + [p]) else old(Working())
    {
      if ViolatesUnique(payments, p) {
        return false;
      }
      payments := payments + [p];
      return true;
    }
  }
}
