/** Serial runs of the service calls against any payment provider that echoes the amount it
    was asked to refund, whatever status it answers and whenever it refuses. */
module PaymentRuns {
  import opened Wrappers
  import opened SessionStateMachine
  import opened Idempotency
  import opened PaymentTables
  import opened PaymentProvider
  import opened PaymentSteps

  datatype RefundReply = RefundRefused | RefundReplied(refundId: Key, status: RefundStatus)

  function Echo(reply: RefundReply, amount: int): RefundAnswer {
    match reply
    case RefundRefused => RefundRaised
    case RefundReplied(id, status) => RefundAnswered(RefundResult(id, status, amount))
  }

  datatype Step =
    | NewBooking(pnr: Pnr, totalPrice: nat)
    | StartSession(session: SessionRequest, answer: SessionAnswer)
    | Deliver(event: WebhookEvent)
    | StaffRefund(refund: RefundRequest, reply: RefundReply)
    | CancelBooking(cancel: CancelRequest, airline: AirlineAnswer<int>, reply: RefundReply)
    | ModifyBooking(changes: ModifyRequest, change: AirlineAnswer<nat>)

  function RefundStep(l: Local, req: RefundRequest, reply: RefundReply): (r: (Local, Outcome))
    requires ForeignKeys(l.db)
    ensures ForeignKeys(r.0.db)
  {
    match PlanRefund(l, req)
    case RefundStop(l', outcome) => (l', outcome)
    case RefundCall(l', i, _, amount) => FinishRefund(l', req, i, amount, Echo(reply, amount))
  }

  function CancelStep(l: Local, req: CancelRequest, airline: AirlineAnswer<int>, reply: RefundReply)
      : (r: (Local, Outcome))
    requires ForeignKeys(l.db)
    ensures ForeignKeys(r.0.db)
  {
    match PlanCancel(l, req, airline)
    case CancelStop(l', outcome) => (l', outcome)
    case CancelCommit(l') => CommitCancel(l', req)
    case CancelCall(l', i, _, amount) => FinishCancel(l', req, i, amount, Echo(reply, amount))
  }

  function Next(l: Local, step: Step): (l': Local)
    requires ForeignKeys(l.db)
    ensures ForeignKeys(l'.db)
  {
    match step
    case NewBooking(pnr, total) => AddBooking(l, pnr, total)
    case StartSession(req, answer) => CreateSession(l, req, answer).0
    case Deliver(event) => Webhook(l, event).0
    case StaffRefund(req, reply) => RefundStep(l, req, reply).0
    case CancelBooking(req, airline, reply) => CancelStep(l, req, airline, reply).0
    case ModifyBooking(req, change) => Modify(l, req, change).0
  }

  const EMPTY := Local(Tables(map[], []), map[])

  function Run(l: Local, steps: seq<Step>): (l': Local)
    requires ForeignKeys(l.db)
    ensures ForeignKeys(l'.db)
    decreases |steps|
  {
    if steps == [] then l else Run(Next(l, steps[0]), steps[1..])
  }

  // ------------------------------------------------------------ the invariant

  predicate Agrees(payment: BookingPayment, status: SessionStatus) {
    payment == BookingPaymentFor(status) || (payment.Refunded? && status.Succeeded?)
  }

  predicate RefundBounded(p: Payment) {
    0 <= RefundedOf(p) <= p.amount && (p.refunded.Some? ==> p.status.Succeeded?)
  }

  /** Terminal without having been paid. */
  predicate Dead(status: SessionStatus) {
    IsTerminal(status) && !status.Succeeded?
  }

  ghost predicate UniqueRows(rows: seq<Payment>) {
    forall i, j | 0 <= i < j < |rows| :: rows[i].key != rows[j].key && rows[i].sessionId != rows[j].sessionId
  }

  ghost predicate SupersededAreDead(rows: seq<Payment>) {
    forall i, j | 0 <= i < j < |rows| && rows[i].pnr == rows[j].pnr :: Dead(rows[i].status)
  }

  predicate Mirrors(db: Tables, pnr: Pnr)
    requires pnr in db.bookings
  {
    match Latest(db.payments, pnr)
    case None => db.bookings[pnr].payment.Unpaid?
    case Some(i) => Agrees(db.bookings[pnr].payment, db.payments[i].status)
  }

  ghost predicate BookingsMirrorPayments(db: Tables) {
    forall pnr | pnr in db.bookings :: Mirrors(db, pnr)
  }

  ghost predicate RefundsBounded(rows: seq<Payment>) {
    forall i | 0 <= i < |rows| :: RefundBounded(rows[i])
  }

  ghost predicate RowsValid(db: Tables) {
    && ForeignKeys(db)
    && UniqueRows(db.payments)
    && SupersededAreDead(db.payments)
    && BookingsMirrorPayments(db)
    && RefundsBounded(db.payments)
  }

  /** A stored reference names a row; a session's names the row with its own key. */
  predicate EntryValid(rows: seq<Payment>, key: Key, entry: Stored) {
    && entry.Completed?
    && (key.SessionKey? || key.RefundKey? ==> entry.result.PaymentRef? && entry.result.index < |rows|)
    && (key.SessionKey? ==> rows[entry.result.index].key == key)
  }

  ghost predicate EntriesValid(l: Local) {
    forall k | k in l.entries :: EntryValid(l.db.payments, k, l.entries[k])
  }

  /** Every row is stored as the result of its own key. */
  ghost predicate RowsStored(l: Local) {
    forall i | 0 <= i < |l.db.payments| ::
      var key := l.db.payments[i].key;
      key.SessionKey? && key in l.entries && l.entries[key] == Completed(PaymentRef(i))
  }

  ghost predicate Valid(l: Local) {
    RowsValid(l.db) && EntriesValid(l) && RowsStored(l)
  }

  /** A completed entry is never replaced and never forgotten. */
  ghost predicate EntriesKept(l: Local, l': Local) {
    forall k | k in l.entries :: k in l'.entries && l'.entries[k] == l.entries[k]
  }

  // ------------------------------------------------------------ what no step ever undoes

  predicate RowEvolves(p: Payment, p': Payment) {
    && p'.pnr == p.pnr && p'.key == p.key && p'.sessionId == p.sessionId && p'.amount == p.amount
    && (IsTerminal(p.status) ==> p'.status == p.status && p'.intent == p.intent)
    && RefundedOf(p) <= RefundedOf(p')
  }

  predicate IsRefunded(db: Tables, pnr: Pnr) {
    pnr in db.bookings && db.bookings[pnr].payment.Refunded?
  }

  ghost predicate Evolves(db: Tables, db': Tables) {
    && |db.payments| <= |db'.payments|
    && (forall i | 0 <= i < |db.payments| :: RowEvolves(db.payments[i], db'.payments[i]))
    && (forall i, j | 0 <= i < |db.payments| <= j < |db'.payments| && db.payments[i].status.Succeeded? ::
          db'.payments[j].pnr != db.payments[i].pnr)
    && (forall pnr | IsRefunded(db, pnr) :: IsRefunded(db', pnr))
    && (forall i | 0 <= i < |db.payments| && IsRefunded(db, db.payments[i].pnr) :: db'.payments[i] == db.payments[i])
  }

  /** A step that adds no row leaves every row stored under its key. */
  lemma StoredStays(l: Local, l': Local)
    requires RowsStored(l) && EntriesKept(l, l') && Evolves(l.db, l'.db) && |l'.db.payments| == |l.db.payments|
    ensures RowsStored(l')
  {
    forall i | 0 <= i < |l'.db.payments|
      ensures l'.db.payments[i].key == l.db.payments[i].key
    {
      assert RowEvolves(l.db.payments[i], l'.db.payments[i]);
    }
  }

  lemma EvolvesTransitively(a: Tables, b: Tables, c: Tables)
    requires Evolves(a, b) && Evolves(b, c)
    ensures Evolves(a, c)
  {
    forall i | 0 <= i < |a.payments|
      ensures RowEvolves(a.payments[i], c.payments[i])
    {
      assert RowEvolves(a.payments[i], b.payments[i]) && RowEvolves(b.payments[i], c.payments[i]);
    }
    forall i, j | 0 <= i < |a.payments| <= j < |c.payments| && a.payments[i].status.Succeeded?
      ensures c.payments[j].pnr != a.payments[i].pnr
    {
      assert RowEvolves(a.payments[i], b.payments[i]);
      if j < |b.payments| { assert RowEvolves(b.payments[j], c.payments[j]); }
    }
    forall i | 0 <= i < |a.payments| && IsRefunded(a, a.payments[i].pnr)
      ensures c.payments[i] == a.payments[i]
    {
      assert b.payments[i] == a.payments[i] && IsRefunded(b, a.payments[i].pnr);
    }
  }

  // ------------------------------------------------------------ the three ways a step changes money

  /** No payment and no booking's payment status changes; new bookings are unpaid. */
  ghost predicate Untouched(db: Tables, db': Tables) {
    && db'.payments == db.payments
    && (forall pnr | pnr in db.bookings :: pnr in db'.bookings && db'.bookings[pnr].payment == db.bookings[pnr].payment)
    && (forall pnr | pnr in db'.bookings && pnr !in db.bookings :: db'.bookings[pnr].payment.Unpaid?)
  }

  /** The latest payment of a booking that is not yet refunded changes. */
  ghost predicate Settles(db: Tables, db': Tables, i: nat) {
    && i < |db.payments| == |db'.payments|
    && var p, p' := db.payments[i], db'.payments[i];
    && p.pnr in db.bookings && !db.bookings[p.pnr].payment.Refunded?
    && db'.payments == db.payments[i := p']
    && RowEvolves(p, p') && RefundBounded(p')
    && db'.bookings.Keys == db.bookings.Keys
    && (forall pnr | pnr in db.bookings && pnr != p.pnr :: db'.bookings[pnr].payment == db.bookings[pnr].payment)
    && Agrees(db'.bookings[p.pnr].payment, p'.status)
  }

  /** A booking without a live payment gets a new pending one. */
  ghost predicate Opens(db: Tables, db': Tables, p: Payment) {
    && db'.payments == db.payments + [p]
    && p.pnr in db.bookings && p.status.Pending? && p.refunded.None?
    && !ViolatesUnique(db.payments, p)
    && (match Latest(db.payments, p.pnr) case None => true case Some(i) => Dead(db.payments[i].status))
    && db'.bookings.Keys == db.bookings.Keys
    && (forall pnr | pnr in db.bookings && pnr != p.pnr :: db'.bookings[pnr].payment == db.bookings[pnr].payment)
    && !db.bookings[p.pnr].payment.Refunded?
    && db'.bookings[p.pnr].payment.PaymentPending?
  }

  lemma LatestIsUnique(rows: seq<Payment>, i: nat)
    requires i < |rows| && IsLatest(rows, i)
    ensures Latest(rows, rows[i].pnr) == Some(i)
  {
  }

  lemma LatestAfterUpdate(rows: seq<Payment>, i: nat, p: Payment, pnr: Pnr)
    requires i < |rows| && p.pnr == rows[i].pnr
    ensures Latest(rows[i := p], pnr) == Latest(rows, pnr)
  {
    var rows' := rows[i := p];
    var r := Latest(rows, pnr);
    if r.Some? {
      assert forall j | r.value < j < |rows| :: rows'[j].pnr == rows[j].pnr;
      LatestIsUnique(rows', r.value);
    } else {
      assert forall j | 0 <= j < |rows| :: rows'[j].pnr == rows[j].pnr;
    }
  }

  lemma LatestAfterAppend(rows: seq<Payment>, p: Payment, pnr: Pnr)
    ensures Latest(rows + [p], pnr) == if pnr == p.pnr then Some(|rows|) else Latest(rows, pnr)
  {
    assert (rows + [p])[..|rows|] == rows;
  }

  /** Only the latest payment of a booking can be open or succeeded. */
  lemma LiveIsLatest(rows: seq<Payment>, i: nat)
    requires SupersededAreDead(rows) && i < |rows| && !Dead(rows[i].status)
    ensures Latest(rows, rows[i].pnr) == Some(i)
  {
    LatestIsUnique(rows, i);
  }

  lemma UntouchedKeepsRowsValid(db: Tables, db': Tables)
    requires RowsValid(db) && Untouched(db, db')
    ensures RowsValid(db') && Evolves(db, db')
  {
    forall pnr | pnr in db'.bookings
      ensures Mirrors(db', pnr)
    {
      if pnr in db.bookings { assert Mirrors(db, pnr); }
    }
  }

  lemma SettlesEvolves(db: Tables, db': Tables, i: nat)
    requires SupersededAreDead(db.payments) && Settles(db, db', i)
    ensures Evolves(db, db')
  {
  }

  lemma SettlesKeepsRowsValid(db: Tables, db': Tables, i: nat)
    requires RowsValid(db) && Settles(db, db', i) && !Dead(db.payments[i].status)
    ensures RowsValid(db') && Evolves(db, db')
  {
    SettlesEvolves(db, db', i);
    LiveIsLatest(db.payments, i);
    SettlesKeepsMirrors(db, db', i);
  }

  lemma SettlesKeepsMirrors(db: Tables, db': Tables, i: nat)
    requires BookingsMirrorPayments(db) && Settles(db, db', i) && Latest(db.payments, db.payments[i].pnr) == Some(i)
    ensures BookingsMirrorPayments(db')
  {
    forall pnr | pnr in db'.bookings
      ensures Mirrors(db', pnr)
    {
      LatestAfterUpdate(db.payments, i, db'.payments[i], pnr);
      assert Mirrors(db, pnr);
    }
  }

  lemma OpensKeepsRowsValid(db: Tables, db': Tables, p: Payment)
    requires RowsValid(db) && Opens(db, db', p)
    ensures RowsValid(db') && Evolves(db, db')
  {
    forall i | 0 <= i < |db.payments| && db.payments[i].pnr == p.pnr
      ensures Dead(db.payments[i].status)
    {
      if !Dead(db.payments[i].status) { LiveIsLatest(db.payments, i); }
    }
    OpensKeepsMirrors(db, db', p);
  }

  lemma OpensKeepsMirrors(db: Tables, db': Tables, p: Payment)
    requires BookingsMirrorPayments(db) && Opens(db, db', p)
    ensures BookingsMirrorPayments(db')
  {
    forall pnr | pnr in db'.bookings
      ensures Mirrors(db', pnr)
    {
      LatestAfterAppend(db.payments, p, pnr);
      assert Mirrors(db, pnr);
    }
  }

  // ------------------------------------------------------------ every step keeps the invariant

  /** A pending booking always has an open payment, its latest one: `create_payment_session`
      never falls through to a second session. */
  lemma PendingBookingHasOpenPayment(db: Tables, pnr: Pnr)
    requires RowsValid(db) && pnr in db.bookings && db.bookings[pnr].payment.PaymentPending?
    ensures Open(db.payments, pnr).Some? && Open(db.payments, pnr) == Latest(db.payments, pnr)
  {
    assert Mirrors(db, pnr);
    LiveIsLatest(db.payments, Open(db.payments, pnr).value);
  }

  /** A session reaches the provider only for a booking without a live payment. */
  lemma StartIsAdmissible(l: Local, req: SessionRequest)
    requires RowsValid(l.db)
    ensures match PlanCreate(l, req)
            case CreateStop(l', _) => l'.db == l.db
            case CreateCall(l', amount) =>
              && l'.db == l.db && req.pnr in l.db.bookings && amount == l.db.bookings[req.pnr].totalPrice
              && !l.db.bookings[req.pnr].payment.Refunded?
              && match Latest(l.db.payments, req.pnr) case None => true case Some(i) => Dead(l.db.payments[i].status)
  {
    if req.pnr in l.db.bookings {
      assert Mirrors(l.db, req.pnr);
      if l.db.bookings[req.pnr].payment.PaymentPending? { PendingBookingHasOpenPayment(l.db, req.pnr); }
    }
  }

  lemma StartSessionKeepsRowsValid(l: Local, req: SessionRequest, answer: SessionAnswer)
    requires RowsValid(l.db)
    ensures RowsValid(CreateSession(l, req, answer).0.db) && Evolves(l.db, CreateSession(l, req, answer).0.db)
  {
    StartIsAdmissible(l, req);
    UntouchedKeepsRowsValid(l.db, l.db);
    match PlanCreate(l, req)
    case CreateStop(_, _) =>
    case CreateCall(l', amount) =>
      var db' := FinishCreate(l', req, amount, answer).0.db;
      if db' != l.db {
        OpensKeepsRowsValid(l.db, db', NewPayment(req, amount, answer.sessionId, answer.intent));
      }
  }

  lemma StartSessionKeepsValid(l: Local, req: SessionRequest, answer: SessionAnswer)
    requires Valid(l)
    ensures Valid(CreateSession(l, req, answer).0) && Evolves(l.db, CreateSession(l, req, answer).0.db)
  {
    StartSessionKeepsRowsValid(l, req, answer);
    StartSessionKeepsEntriesValid(l, req, answer);
    StartSessionKeepsStored(l, req, answer);
  }

  /** A session is asked for only under a key the store has not seen. */
  lemma SentSessionIsNew(l: Local, req: SessionRequest)
    requires EntriesValid(l) && PlanCreate(l, req).CreateCall?
    ensures req.Key() !in l.entries && PlanCreate(l, req).local == l.(entries := l.entries[req.Key() := InProgress])
  {
  }

  lemma StartSessionKeepsEntries(l: Local, req: SessionRequest, answer: SessionAnswer)
    requires EntriesValid(l)
    ensures EntriesKept(l, CreateSession(l, req, answer).0)
  {
    if PlanCreate(l, req).CreateCall? { SentSessionIsNew(l, req); }
  }

  lemma StartSessionKeepsStored(l: Local, req: SessionRequest, answer: SessionAnswer)
    requires EntriesValid(l) && RowsStored(l)
    ensures RowsStored(CreateSession(l, req, answer).0)
  {
    StartSessionKeepsEntries(l, req, answer);
    var l' := CreateSession(l, req, answer).0;
    assert l'.db.payments == l.db.payments ||
           (l'.db.payments[..|l.db.payments|] == l.db.payments && |l'.db.payments| == |l.db.payments| + 1 &&
            l'.db.payments[|l.db.payments|].key == req.Key() &&
                l'.entries[req.Key()] == Completed(PaymentRef(|l.db.payments|)));
    forall i | 0 <= i < |l.db.payments|
      ensures l'.db.payments[i].key == l.db.payments[i].key
    {
      assert l'.db.payments[..|l.db.payments|][i] == l.db.payments[i];
    }
  }

  lemma StartSessionKeepsEntriesValid(l: Local, req: SessionRequest, answer: SessionAnswer)
    requires EntriesValid(l)
    ensures EntriesValid(CreateSession(l, req, answer).0)
  {
    var l' := CreateSession(l, req, answer).0;
    assert |l'.db.payments| >= |l.db.payments| && l'.db.payments[..|l.db.payments|] == l.db.payments;
    assert forall k | k in l'.entries && k != req.Key() :: k in l.entries && l'.entries[k] == l.entries[k];
  }

  lemma DeliverKeepsRowsValid(l: Local, event: WebhookEvent)
    requires RowsValid(l.db)
    ensures RowsValid(Webhook(l, event).0.db) && Evolves(l.db, Webhook(l, event).0.db)
    ensures |Webhook(l, event).0.db.payments| == |l.db.payments|
  {
    var (l', outcome) := Webhook(l, event);
    if outcome.Transitioned? {
      var i := BySession(l.db.payments, event.session.value).value;
      assert !Dead(l.db.payments[i].status) && RefundBounded(l.db.payments[i]);
      NotRefundedUnlessSucceeded(l.db, i);
      SettlesKeepsRowsValid(l.db, l'.db, i);
    } else {
      UntouchedKeepsRowsValid(l.db, l'.db);
    }
  }

  lemma NotRefundedUnlessSucceeded(db: Tables, i: nat)
    requires RowsValid(db) && i < |db.payments| && !IsTerminal(db.payments[i].status)
    ensures !db.bookings[db.payments[i].pnr].payment.Refunded?
  {
    LiveIsLatest(db.payments, i);
    assert Mirrors(db, db.payments[i].pnr);
  }

  lemma DeliverKeepsValid(l: Local, event: WebhookEvent)
    requires Valid(l)
    ensures Valid(Webhook(l, event).0) && Evolves(l.db, Webhook(l, event).0.db)
  {
    DeliverKeepsRowsValid(l, event);
    var l' := Webhook(l, event).0;
    assert l'.entries == l.entries || l'.entries == l.entries[EventKey(event.id) := Completed(EventOutcome)];
    StoredStays(l, l');
  }

  lemma DeliverKeepsEntries(l: Local, event: WebhookEvent)
    requires ForeignKeys(l.db)
    ensures EntriesKept(l, Webhook(l, event).0)
  {
  }

  /** Applying an admissible refund to a succeeded payment. */
  lemma ApplyRefundKeepsRowsValid(db: Tables, i: nat, result: Option<RefundResult>, amount: int, closes: bool)
    requires RowsValid(db) && i < |db.payments| && db.payments[i].status.Succeeded?
    requires 0 <= amount <= db.payments[i].amount - RefundedOf(db.payments[i])
    requires result.Some? ==> result.value.amount == amount
    requires !IsRefunded(db, db.payments[i].pnr)
    ensures RowsValid(ApplyRefund(db, i, result, amount, closes)) &&
        Evolves(db, ApplyRefund(db, i, result, amount, closes))
  {
    LiveIsLatest(db.payments, i);
    assert Mirrors(db, db.payments[i].pnr);
    SettlesKeepsRowsValid(db, ApplyRefund(db, i, result, amount, closes), i);
  }

  /** A refund reaches the provider only for an amount that is left on a succeeded payment. */
  lemma RefundIsAdmissible(l: Local, req: RefundRequest)
    ensures match PlanRefund(l, req)
            case RefundStop(l', _) => l'.db == l.db
            case RefundCall(l', i, intent, amount) =>
              && l'.db == l.db && req.pnr in l.db.bookings
              && Latest(l.db.payments, req.pnr) == Some(i)
              && l.db.payments[i].status.Succeeded? && l.db.payments[i].intent == Some(intent)
              && 0 < amount <= l.db.payments[i].amount - RefundedOf(l.db.payments[i])
              && !IsRefunded(l.db, req.pnr)
  {
  }

  lemma RefundStepKeepsRowsValid(l: Local, req: RefundRequest, reply: RefundReply)
    requires RowsValid(l.db)
    ensures RowsValid(RefundStep(l, req, reply).0.db) && Evolves(l.db, RefundStep(l, req, reply).0.db)
    ensures |RefundStep(l, req, reply).0.db.payments| == |l.db.payments|
  {
    RefundIsAdmissible(l, req);
    UntouchedKeepsRowsValid(l.db, l.db);
    match PlanRefund(l, req)
    case RefundStop(_, _) =>
    case RefundCall(l', i, _, amount) => FinishRefundKeepsRowsValid(l', req, i, amount, reply);
  }

  lemma FinishRefundKeepsRowsValid(l: Local, req: RefundRequest, i: nat, amount: int, reply: RefundReply)
    requires RowsValid(l.db) && i < |l.db.payments| && l.db.payments[i].status.Succeeded?
    requires 0 < amount <= l.db.payments[i].amount - RefundedOf(l.db.payments[i])
    requires !IsRefunded(l.db, l.db.payments[i].pnr)
    ensures
      var db' := FinishRefund(l, req, i, amount, Echo(reply, amount)).0.db;
      RowsValid(db') && Evolves(l.db, db') && |db'.payments| == |l.db.payments|
  {
    UntouchedKeepsRowsValid(l.db, l.db);
    if reply.RefundReplied? {
      var p, result := l.db.payments[i], Some(RefundResult(reply.refundId, reply.status, amount));
      var closes := RefundedOf(p) + amount >= p.amount;
      ApplyRefundKeepsRowsValid(l.db, i, result, amount, closes);
      assert FinishRefund(l, req, i, amount, Echo(reply, amount)).0.db == ApplyRefund(l.db, i, result, amount, closes);
    }
  }

  lemma RefundStepKeepsValid(l: Local, req: RefundRequest, reply: RefundReply)
    requires Valid(l)
    ensures Valid(RefundStep(l, req, reply).0) && Evolves(l.db, RefundStep(l, req, reply).0.db)
  {
    RefundStepKeepsRowsValid(l, req, reply);
    RefundStepKeepsEntriesValid(l, req, reply);
    RefundStepKeepsEntries(l, req, reply);
    StoredStays(l, RefundStep(l, req, reply).0);
  }

  /** A refund is sent only under a key the store has not seen. */
  lemma SentRefundIsNew(l: Local, req: RefundRequest)
    requires EntriesValid(l) && PlanRefund(l, req).RefundCall?
    ensures req.Key() !in l.entries && PlanRefund(l, req).local == l.(entries := l.entries[req.Key() := InProgress])
  {
  }

  lemma RefundStepKeepsEntries(l: Local, req: RefundRequest, reply: RefundReply)
    requires EntriesValid(l) && ForeignKeys(l.db)
    ensures EntriesKept(l, RefundStep(l, req, reply).0)
  {
    var plan := PlanRefund(l, req);
    if plan.RefundCall? {
      SentRefundIsNew(l, req);
      var l' := RefundStep(l, req, reply).0;
      assert l'.entries == plan.local.entries - {req.Key()} ||
             l'.entries == plan.local.entries[req.Key() := Completed(PaymentRef(plan.index))];
    }
  }

  lemma RefundStepKeepsEntriesValid(l: Local, req: RefundRequest, reply: RefundReply)
    requires EntriesValid(l) && ForeignKeys(l.db)
    ensures EntriesValid(RefundStep(l, req, reply).0)
  {
    var l' := RefundStep(l, req, reply).0;
    var plan := PlanRefund(l, req);
    if plan.RefundCall? {
      assert l'.entries == plan.local.entries - {req.Key()} ||
             l'.entries == plan.local.entries[req.Key() := Completed(PaymentRef(plan.index))];
    }
  }

  lemma CloseOutIsAdmissible(l: Local, pnr: Pnr, refundable: int)
    requires RowsValid(l.db) && pnr in l.db.bookings
    ensures match PlanCloseOut(l, pnr, l.db.bookings[pnr].payment, refundable)
            case CancelStop(_, _) => false
            case CancelCommit(l') =>
              l' == l ||
              var latest := Latest(l.db.payments, pnr);
              && latest.Some? && l.db.payments[latest.value].status.Succeeded? && !IsRefunded(l.db, pnr)
              && l' == l.(db := ApplyRefund(l.db, latest.value, None, 0, true))
            case CancelCall(l', i, intent, amount) =>
              && l' == l && Latest(l.db.payments, pnr) == Some(i) && !IsRefunded(l.db, pnr)
              && l.db.payments[i].status.Succeeded? && l.db.payments[i].intent == Some(intent)
              && 0 < amount <= l.db.payments[i].amount - RefundedOf(l.db.payments[i])
  {
  }

  /** The refund branch of a cancellation, from the state in which the booking is marked cancelled. */
  lemma CloseOutKeepsRowsValid(l: Local, pnr: Pnr, refundable: int, reply: RefundReply)
    requires RowsValid(l.db) && pnr in l.db.bookings
    ensures
      var db' := CloseOutTables(l, pnr, refundable, reply);
      RowsValid(db') && Evolves(l.db, db') && |db'.payments| == |l.db.payments|
  {
    CloseOutIsAdmissible(l, pnr, refundable);
    UntouchedKeepsRowsValid(l.db, l.db);
    match PlanCloseOut(l, pnr, l.db.bookings[pnr].payment, refundable)
    case CancelCommit(l') =>
      if l' != l {
        assert RefundBounded(l.db.payments[Latest(l.db.payments, pnr).value]);
        ApplyRefundKeepsRowsValid(l.db, Latest(l.db.payments, pnr).value, None, 0, true);
      }
    case CancelCall(_, i, _, amount) =>
      if reply.RefundReplied? {
        ApplyRefundKeepsRowsValid(l.db, i, Some(RefundResult(reply.refundId, reply.status, amount)), amount, true);
      }
  }

  function CloseOutTables(l: Local, pnr: Pnr, refundable: int, reply: RefundReply): Tables
    requires ForeignKeys(l.db) && pnr in l.db.bookings
  {
    match PlanCloseOut(l, pnr, l.db.bookings[pnr].payment, refundable)
    case CancelStop(l', _) => l'.db
    case CancelCommit(l') => l'.db
    case CancelCall(l', i, _, amount) => AfterCancelRefund(l', i, amount, Echo(reply, amount)).db
  }

  /** The tables once the airline has cancelled a booking and before its payment is closed out. */
  function MarkCancelled(db: Tables, pnr: Pnr): Tables
    requires pnr in db.bookings
  {
    db.(bookings := db.bookings[pnr := db.bookings[pnr].(status := Cancelled)])
  }

  lemma CancelStepKeepsRowsValid(l: Local, req: CancelRequest, airline: AirlineAnswer<int>, reply: RefundReply)
    requires RowsValid(l.db)
    ensures RowsValid(CancelStep(l, req, airline, reply).0.db) && Evolves(l.db, CancelStep(l, req, airline, reply).0.db)
    ensures |CancelStep(l, req, airline, reply).0.db.payments| == |l.db.payments|
  {
    if PlanCancel(l, req, airline).CancelStop? {
      UntouchedKeepsRowsValid(l.db, l.db);
    } else {
      CancelStepClosesOut(l, req, airline, reply);
      MarkedCloseOutKeepsRowsValid(l.db, Begin(l.entries, req.Key()).0, req.pnr, airline.value, reply);
    }
  }

  lemma MarkedCloseOutKeepsRowsValid(db: Tables, entries: Entries, pnr: Pnr, refundable: int, reply: RefundReply)
    requires RowsValid(db) && pnr in db.bookings
    ensures
      var db' := CloseOutTables(Local(MarkCancelled(db, pnr), entries), pnr, refundable, reply);
      RowsValid(db') && Evolves(db, db') && |db'.payments| == |db.payments|
  {
    var marked := Local(MarkCancelled(db, pnr), entries);
    UntouchedKeepsRowsValid(db, marked.db);
    CloseOutKeepsRowsValid(marked, pnr, refundable, reply);
    EvolvesTransitively(db, marked.db, CloseOutTables(marked, pnr, refundable, reply));
  }

  lemma CancelStepClosesOut(l: Local, req: CancelRequest, airline: AirlineAnswer<int>, reply: RefundReply)
    requires ForeignKeys(l.db) && !PlanCancel(l, req, airline).CancelStop?
    ensures req.pnr in l.db.bookings && airline.AirlineDone?
    ensures
      var l' := Local(MarkCancelled(l.db, req.pnr), Begin(l.entries, req.Key()).0);
      CancelStep(l, req, airline, reply).0 ==
      Local(CloseOutTables(l', req.pnr, airline.value, reply), l'.entries[req.Key() := Completed(BookingRef(req.pnr))])
  {
  }

  lemma CancelStepKeepsValid(l: Local, req: CancelRequest, airline: AirlineAnswer<int>, reply: RefundReply)
    requires Valid(l)
    ensures Valid(CancelStep(l, req, airline, reply).0) && Evolves(l.db, CancelStep(l, req, airline, reply).0.db)
  {
    CancelStepKeepsRowsValid(l, req, airline, reply);
    CancelStepKeepsEntriesValid(l, req, airline, reply);
    CancelStepKeepsEntries(l, req, airline, reply);
    StoredStays(l, CancelStep(l, req, airline, reply).0);
  }

  lemma CancelStepKeepsEntries(l: Local, req: CancelRequest, airline: AirlineAnswer<int>, reply: RefundReply)
    requires EntriesValid(l) && ForeignKeys(l.db)
    ensures EntriesKept(l, CancelStep(l, req, airline, reply).0)
  {
    if !PlanCancel(l, req, airline).CancelStop? { CancelStepClosesOut(l, req, airline, reply); }
  }

  lemma CancelStepKeepsEntriesValid(l: Local, req: CancelRequest, airline: AirlineAnswer<int>, reply: RefundReply)
    requires EntriesValid(l) && ForeignKeys(l.db)
    requires |CancelStep(l, req, airline, reply).0.db.payments| == |l.db.payments|
    requires Evolves(l.db, CancelStep(l, req, airline, reply).0.db)
    ensures EntriesValid(CancelStep(l, req, airline, reply).0)
  {
    var l' := CancelStep(l, req, airline, reply).0;
    if PlanCancel(l, req, airline).CancelStop? {
      assert forall k | k in l'.entries :: k in l.entries && l'.entries[k] == l.entries[k];
    } else {
      CancelStepClosesOut(l, req, airline, reply);
      assert forall k | k in l'.entries && k != req.Key() :: k in l.entries && l'.entries[k] == l.entries[k];
    }
  }

  lemma AddBookingKeepsValid(l: Local, pnr: Pnr, totalPrice: nat)
    requires Valid(l)
    ensures Valid(AddBooking(l, pnr, totalPrice)) && Evolves(l.db, AddBooking(l, pnr, totalPrice).db)
  {
    UntouchedKeepsRowsValid(l.db, AddBooking(l, pnr, totalPrice).db);
    StoredStays(l, AddBooking(l, pnr, totalPrice));
  }

  lemma ModifyMovesNoMoney(l: Local, req: ModifyRequest, change: AirlineAnswer<nat>)
    ensures Modify(l, req, change).0.db.payments == l.db.payments && Modify(l, req, change).0.entries == l.entries
  {
  }

  lemma ModifyKeepsValid(l: Local, req: ModifyRequest, change: AirlineAnswer<nat>)
    requires Valid(l)
    ensures Valid(Modify(l, req, change).0) && Evolves(l.db, Modify(l, req, change).0.db)
  {
    ModifyMovesNoMoney(l, req, change);
    UntouchedKeepsRowsValid(l.db, Modify(l, req, change).0.db);
    StoredStays(l, Modify(l, req, change).0);
  }

  lemma NextKeepsValid(l: Local, step: Step)
    requires Valid(l)
    ensures Valid(Next(l, step)) && Evolves(l.db, Next(l, step).db)
  {
    match step
    case NewBooking(pnr, totalPrice) => AddBookingKeepsValid(l, pnr, totalPrice);
    case StartSession(req, answer) => StartSessionKeepsValid(l, req, answer);
    case Deliver(event) => DeliverKeepsValid(l, event);
    case StaffRefund(req, reply) => RefundStepKeepsValid(l, req, reply);
    case CancelBooking(req, airline, reply) => CancelStepKeepsValid(l, req, airline, reply);
    case ModifyBooking(req, change) => ModifyKeepsValid(l, req, change);
  }

  lemma {:induction false} RunKeepsValid(l: Local, steps: seq<Step>)
    requires Valid(l)
    ensures Valid(Run(l, steps)) && Evolves(l.db, Run(l, steps).db)
    decreases |steps|
  {
    if steps == [] {
      UntouchedKeepsRowsValid(l.db, l.db);
    } else {
      NextKeepsValid(l, steps[0]);
      RunKeepsValid(Next(l, steps[0]), steps[1..]);
      EvolvesTransitively(l.db, Next(l, steps[0]).db, Run(l, steps).db);
    }
  }

  /** Whatever the store has completed it keeps, through every step. */
  lemma NextKeepsEntries(l: Local, step: Step)
    requires Valid(l)
    ensures EntriesKept(l, Next(l, step))
  {
    match step
    case StartSession(req, answer) => StartSessionKeepsEntries(l, req, answer);
    case StaffRefund(req, reply) => RefundStepKeepsEntries(l, req, reply);
    case CancelBooking(req, airline, reply) => CancelStepKeepsEntries(l, req, airline, reply);
    case Deliver(event) => DeliverKeepsEntries(l, event);
    case ModifyBooking(req, change) => ModifyMovesNoMoney(l, req, change);
    case NewBooking(_, _) =>
  }

  lemma {:induction false} RunKeepsEntries(l: Local, steps: seq<Step>)
    requires Valid(l)
    ensures EntriesKept(l, Run(l, steps))
    decreases |steps|
  {
    if steps != [] {
      NextKeepsEntries(l, steps[0]);
      NextKeepsValid(l, steps[0]);
      RunKeepsEntries(Next(l, steps[0]), steps[1..]);
    }
  }

  lemma {:induction false} RunAppends(l: Local, a: seq<Step>, b: seq<Step>)
    requires ForeignKeys(l.db)
    ensures Run(l, a + b) == Run(Run(l, a), b)
    decreases |a|
  {
    if a == [] {
      assert a + b == b;
    } else {
      assert (a + b)[1..] == a[1..] + b;
      RunAppends(Next(l, a[0]), a[1..], b);
    }
  }

  lemma RunOfOne(l: Local, step: Step)
    requires ForeignKeys(l.db)
    ensures Run(l, [step]) == Next(l, step)
  {
    var l' := Next(l, step);
    assert [step][1..] == [];
    assert Run(l', []) == l';
  }

  lemma RunOneMore(l: Local, steps: seq<Step>)
    requires ForeignKeys(l.db) && steps != []
    ensures Run(l, steps) == Next(Run(l, steps[..|steps| - 1]), steps[|steps| - 1])
  {
    var init, last := steps[..|steps| - 1], steps[|steps| - 1];
    assert steps == init + [last];
    RunAppends(l, init, [last]);
    RunOfOne(Run(l, init), last);
  }

  /** A succeeded payment stays its booking's latest, with what it captured. */
  lemma SucceededStays(l: Local, after: seq<Step>, i: nat)
    requires Valid(l) && i < |l.db.payments| && l.db.payments[i].status.Succeeded?
    ensures
      var rows, rows' := l.db.payments, Run(l, after).db.payments;
      && i < |rows'| && RowEvolves(rows[i], rows'[i]) && RefundBounded(rows'[i])
      && Latest(rows', rows[i].pnr) == Some(i) && rows[i].pnr in Run(l, after).db.bookings
  {
    RunKeepsValid(l, after);
    var rows' := Run(l, after).db.payments;
    assert RowEvolves(l.db.payments[i], rows'[i]);
    LiveIsLatest(rows', i);
  }
}
