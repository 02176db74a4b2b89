/** Serial runs of the services together with the mock provider and the customers: the local
    payments table and the provider's own sessions are two ledgers of the same money. */
module TwoLedgers {
  import opened Wrappers
  import opened SessionStateMachine
  import opened Idempotency
  import opened PaymentTables
  import opened PaymentProvider
  import opened PaymentSteps
  import opened PaymentServices
  import R = PaymentRuns

  /** `declined` names the sessions whose asynchronous payment has failed for good, which the
      provider knows and `_MockSession` has no field for. */
  datatype World = World(sys: System, declined: set<nat>)

  datatype Step =
    | NewBooking(pnr: Pnr, totalPrice: nat)
    | StartSession(session: SessionRequest)
    | CustomerCompletes(sessionId: nat, paid: bool, intent: nat)
    | PaymentSettles(sessionId: nat)
    | PaymentDeclines(sessionId: nat)
    | SessionExpires(sessionId: nat)
    | Deliver(event: WebhookEvent)
    | StaffRefund(refund: RefundRequest)
    | CancelBooking(cancel: CancelRequest, airline: AirlineAnswer<int>)
    | ModifyBooking(changes: ModifyRequest, change: AirlineAnswer<nat>)

  predicate IntentIsFresh(sessions: seq<MockSession>, intent: nat) {
    forall s | s in sessions :: s.intent != Some(intent)
  }

  /** What the provider may report about a session in its present state. An event stays legal
      once it is, however late it arrives. */
  predicate Reports(s: MockSession, declined: bool, event: WebhookEvent) {
    && event.intent == s.intent
    && match event.kind
       case SessionCompleted => s.status.SessionComplete? && (event.paid == Some(true) ==> s.paid)
       case AsyncPaymentSucceeded => s.paid
       case AsyncPaymentFailed => declined
       case SessionExpired => s.status.SessionOver?
       case OtherEvent(_) => true
  }

  predicate IsLegal(w: World, event: WebhookEvent) {
    var sessions := w.sys.mock.sessions;
    event.session.Some? && event.session.value < |sessions| && IsRelevant(event.kind) ==>
      Reports(sessions[event.session.value], event.session.value in w.declined, event)
  }

  ghost predicate WellFormed(w: World) {
    MockValid(w.sys.mock) && ForeignKeys(w.sys.local.db)
  }

  /** A customer or provider step that is not possible in a state leaves it unchanged. */
  function Next(w: World, step: Step): (w': World)
    requires WellFormed(w)
    ensures WellFormed(w')
  {
    var sessions := w.sys.mock.sessions;
    match step
    case NewBooking(pnr, total) => w.(sys := w.sys.(local := AddBooking(w.sys.local, pnr, total)))
    case StartSession(req) => w.(sys := CreateOnMock(w.sys, req).0)
    case CustomerCompletes(i, paid, intent) =>
      if i < |sessions| && sessions[i].status.SessionOpen? && IntentIsFresh(sessions, intent)
      then w.(sys := w.sys.(mock := MockComplete(w.sys.mock, i, paid, intent))) else w
    case PaymentSettles(i) =>
      if i < |sessions| && sessions[i].status.SessionComplete? && !sessions[i].paid && sessions[i].intent.Some? &&
          i !in w.declined
      then w.(sys := w.sys.(mock := MockComplete(w.sys.mock, i, true, sessions[i].intent.value))) else w
    case PaymentDeclines(i) =>
      if i < |sessions| && sessions[i].status.SessionComplete? && !sessions[i].paid
      then w.(declined := w.declined + {i}) else w
    case SessionExpires(i) =>
      if i < |sessions| && sessions[i].status.SessionOpen?
      then w.(sys := w.sys.(mock := MockExpire(w.sys.mock, i))) else w
    case Deliver(event) => if IsLegal(w, event) then w.(sys := w.sys.(local := Webhook(w.sys.local, event).0)) else w
    case StaffRefund(req) => w.(sys := RefundOnMock(w.sys, req).0)
    case CancelBooking(req, airline) => w.(sys := CancelOnMock(w.sys, req, airline).0)
    case ModifyBooking(req, change) => w.(sys := w.sys.(local := Modify(w.sys.local, req, change).0))
  }

  // ------------------------------------------------------------ the invariant

  /** A payment row and the provider session behind it. */
  predicate Backs(s: MockSession, declined: bool, p: Payment, i: nat) {
    && p.sessionId == i && s.amount == p.amount && s.refunded == RefundedOf(p)
    && (p.intent.Some? ==> p.intent == s.intent)
    && (p.status.Succeeded? ==> s.paid && p.intent.Some?)
    && (p.status.Failed? ==> declined)
    && (p.status.Expired? ==> s.status.SessionOver?)
    && !p.status.Canceled?
    && (s.paid ==> s.status.SessionComplete? && !declined)
    && (declined ==> s.status.SessionComplete?)
    && (s.status.SessionComplete? <==> s.intent.Some?)
  }

  ghost predicate LedgersBacked(rows: seq<Payment>, sessions: seq<MockSession>, declined: set<nat>) {
    && |sessions| == |rows|
    && (forall d | d in declined :: d < |rows|)
    && (forall i | 0 <= i < |rows| :: Backs(sessions[i], i in declined, rows[i], i))
  }

  ghost predicate IntentsDistinct(sessions: seq<MockSession>) {
    forall i, j | 0 <= i < j < |sessions| && sessions[i].intent.Some? :: sessions[i].intent != sessions[j].intent
  }

  predicate RefundRecorded(entries: Entries, key: Key) {
    match key
    case RefundKey(_) => key in entries
    case CancelRefundKey(id) => CancelKey(id) in entries
    case _ => false
  }

  /** Every key the provider has seen, and every key in the table, is recorded in the store. */
  ghost predicate KeysRecorded(sys: System) {
    && (forall k | k in sys.mock.byKey :: k.SessionKey? && k in sys.local.entries)
    && (forall k | k in sys.mock.refunds :: RefundRecorded(sys.local.entries, k))
    && (forall p | p in sys.local.db.payments :: p.key.SessionKey? && p.key in sys.local.entries)
  }

  ghost predicate MoneyValid(w: World) {
    && MockValid(w.sys.mock)
    && LedgersBacked(w.sys.local.db.payments, w.sys.mock.sessions, w.declined)
    && IntentsDistinct(w.sys.mock.sessions)
    && KeysRecorded(w.sys)
  }

  ghost predicate Valid(w: World) {
    R.Valid(w.sys.local) && MoneyValid(w)
  }

  const START := World(System(R.EMPTY, MockState([], map[], map[])), {})

  function Run(w: World, steps: seq<Step>): (w': World)
    requires WellFormed(w)
    ensures WellFormed(w')
    decreases |steps|
  {
    if steps == [] then w else Run(Next(w, steps[0]), steps[1..])
  }

  // ------------------------------------------------------------ the provider never refuses

  lemma IntentNamesItsSession(sessions: seq<MockSession>, i: nat)
    requires IntentsDistinct(sessions) && i < |sessions| && sessions[i].intent.Some?
    ensures SessionOfIntent(sessions, sessions[i].intent.value) == Some(i)
  {
    assert forall j | 0 <= j < i :: sessions[j].intent != sessions[i].intent;
  }

  /** A refund of what is left on a succeeded payment, under a key the provider has not seen. */
  lemma RefundIsAccepted(m: MockState, declined: set<nat>, rows: seq<Payment>, i: nat, amount: int, key: Key)
    requires LedgersBacked(rows, m.sessions, declined) && IntentsDistinct(m.sessions)
    requires i < |rows| && rows[i].status.Succeeded? && 0 < amount <= rows[i].amount - RefundedOf(rows[i])
    requires key !in m.refunds
    ensures
      && rows[i].intent.Some?
      && MockRefund(m, rows[i].intent.value, amount, key) ==
         (m.(sessions := m.sessions[i := m.sessions[i].(refunded := m.sessions[i].refunded + amount)],
             refunds := m.refunds[key := RefundResult(key, RefundSucceeded, amount)]),
          RefundAnswered(RefundResult(key, RefundSucceeded, amount)))
  {
    assert Backs(m.sessions[i], i in declined, rows[i], i);
    IntentNamesItsSession(m.sessions, i);
  }

  // ------------------------------------------------------------ starting a session

  lemma OpenBothKeepsBacked(rows: seq<Payment>, sessions: seq<MockSession>, declined: set<nat>, p: Payment)
    requires LedgersBacked(rows, sessions, declined) && p.sessionId == |sessions| && |sessions| !in declined
    requires p.status.Pending? && p.intent.None? && p.refunded.None?
    ensures LedgersBacked(rows + [p], sessions + [MockSession(p.amount, SessionOpen, false, None, 0)], declined)
    ensures forall q | q in rows :: q.sessionId != p.sessionId
  {
    assert forall i | 0 <= i < |rows| :: Backs(sessions[i], i in declined, rows[i], i);
  }

  lemma CreateOpensBoth(w: World, req: SessionRequest)
    requires Valid(w) && PlanCreate(w.sys.local, req).CreateCall?
    ensures
      var l, m := w.sys.local, w.sys.mock;
      var p := NewPayment(req, PlanCreate(l, req).amount, |m.sessions|, None);
      && req.pnr in l.db.bookings
      && CreateOnMock(w.sys, req) ==
         (System(Local(Tables(l.db.bookings[req.pnr := l.db.bookings[req.pnr].(payment := PaymentPending)],
                              l.db.payments + [p]),
                       l.entries[req.Key() := Completed(PaymentRef(|l.db.payments|))]),
                 MockState(m.sessions + [MockSession(p.amount, SessionOpen, false, None, 0)],
                           m.byKey[req.Key() := |m.sessions|], m.refunds)),
          GotPayment(|l.db.payments|))
      && CreateSession(l, req, SessionCreated(|m.sessions|, None)) ==
         (CreateOnMock(w.sys, req).0.local, CreateOnMock(w.sys, req).1)
  {
    var l, m, amount := w.sys.local, w.sys.mock, PlanCreate(w.sys.local, req).amount;
    R.StartIsAdmissible(l, req);
    R.SentSessionIsNew(l, req);
    assert req.Key() !in m.byKey;
    NewRowIsUnique(w, req, amount);
    OpenedSessionCompletes(l, req, amount, |m.sessions|);
  }

  lemma NewRowIsUnique(w: World, req: SessionRequest, amount: nat)
    requires MoneyValid(w) && req.Key() !in w.sys.local.entries
    ensures !ViolatesUnique(w.sys.local.db.payments, NewPayment(req, amount, |w.sys.mock.sessions|, None))
  {
    var rows, sessions := w.sys.local.db.payments, w.sys.mock.sessions;
    forall i | 0 <= i < |rows|
      ensures rows[i].key != req.Key() && rows[i].sessionId != |sessions|
    {
      assert Backs(sessions[i], i in w.declined, rows[i], i) && rows[i] in rows;
    }
  }

  lemma OpenedSessionCompletes(l: Local, req: SessionRequest, amount: nat, sessionId: nat)
    requires req.pnr in l.db.bookings && !ViolatesUnique(l.db.payments, NewPayment(req, amount, sessionId, None))
    ensures FinishCreate(l.(entries := l.entries[req.Key() := InProgress]), req, amount,
                         SessionCreated(sessionId, None)) ==
      (Local(Tables(l.db.bookings[req.pnr := l.db.bookings[req.pnr].(payment := PaymentPending)],
                    l.db.payments + [NewPayment(req, amount, sessionId, None)]),
             l.entries[req.Key() := Completed(PaymentRef(|l.db.payments|))]),
       GotPayment(|l.db.payments|))
  {
    assert l.entries[req.Key() := InProgress][req.Key() := Completed(PaymentRef(|l.db.payments|))]
        == l.entries[req.Key() := Completed(PaymentRef(|l.db.payments|))];
  }

  lemma StartSessionKeepsMoneyValid(w: World, req: SessionRequest)
    requires Valid(w) && PlanCreate(w.sys.local, req).CreateCall?
    ensures MoneyValid(w.(sys := CreateOnMock(w.sys, req).0))
  {
    CreateOpensBoth(w, req);
    var p := NewPayment(req, PlanCreate(w.sys.local, req).amount, |w.sys.mock.sessions|, None);
    OpenBothKeepsBacked(w.sys.local.db.payments, w.sys.mock.sessions, w.declined, p);
  }

  lemma StartSessionKeepsValid(w: World, req: SessionRequest)
    requires Valid(w)
    ensures Valid(w.(sys := CreateOnMock(w.sys, req).0))
  {
    if PlanCreate(w.sys.local, req).CreateCall? {
      CreateOpensBoth(w, req);
      StartSessionKeepsMoneyValid(w, req);
      R.StartSessionKeepsValid(w.sys.local, req, SessionCreated(|w.sys.mock.sessions|, None));
    } else {
      StoppedCreateChangesNothing(w.sys.local, req);
    }
  }

  lemma StoppedCreateChangesNothing(l: Local, req: SessionRequest)
    requires PlanCreate(l, req).CreateStop?
    ensures PlanCreate(l, req).local == l
  {
  }

  // ------------------------------------------------------------ customers and events

  lemma PairChangeKeepsBacked(rows: seq<Payment>, sessions: seq<MockSession>, declined: set<nat>, i: nat, p: Payment,
                              s: MockSession)
    requires LedgersBacked(rows, sessions, declined) && i < |rows| && Backs(s, i in declined, p, i)
    ensures LedgersBacked(rows[i := p], sessions[i := s], declined)
  {
  }

  lemma CustomerStepKeepsMoneyValid(w: World, step: Step)
    requires MoneyValid(w) && WellFormed(w)
    requires step.CustomerCompletes? || step.PaymentSettles? || step.PaymentDeclines? || step.SessionExpires?
    ensures MoneyValid(Next(w, step)) && Next(w, step).sys.local == w.sys.local
  {
    var w' := Next(w, step);
    var i := step.sessionId;
    var rows, sessions := w.sys.local.db.payments, w.sys.mock.sessions;
    if i < |sessions| {
      assert Backs(sessions[i], i in w.declined, rows[i], i);
      if step.PaymentDeclines? {
        assert w'.declined == w.declined || w'.declined == w.declined + {i};
      } else {
        assert rows[i := rows[i]] == rows;
        PairChangeKeepsBacked(rows, sessions, w.declined, i, rows[i], w'.sys.mock.sessions[i]);
        if step.CustomerCompletes? {
          assert forall j | 0 <= j < |sessions| :: sessions[j] in sessions;
        }
      }
    }
  }

  lemma DeliverKeepsMoneyValid(w: World, event: WebhookEvent)
    requires MoneyValid(w) && WellFormed(w) && IsLegal(w, event)
    ensures MoneyValid(w.(sys := w.sys.(local := Webhook(w.sys.local, event).0)))
  {
    var (l', outcome) := Webhook(w.sys.local, event);
    var rows, sessions := w.sys.local.db.payments, w.sys.mock.sessions;
    if outcome.Transitioned? {
      var i := BySession(rows, event.session.value).value;
      assert Backs(sessions[i], i in w.declined, rows[i], i);
      assert sessions[i := sessions[i]] == sessions;
      PairChangeKeepsBacked(rows, sessions, w.declined, i, l'.db.payments[i], sessions[i]);
      assert forall j | 0 <= j < |rows| :: l'.db.payments[j].key == rows[j].key && rows[j] in rows;
    }
  }

  // ------------------------------------------------------------ refunds

  /** Both ledgers move by the amount of an accepted refund. */
  lemma RefundMovesBoth(w: World, i: nat, amount: int, key: Key, closes: bool)
    requires MoneyValid(w) && ForeignKeys(w.sys.local.db)
    requires i < |w.sys.local.db.payments| && w.sys.local.db.payments[i].status.Succeeded?
    requires 0 < amount <= w.sys.local.db.payments[i].amount - RefundedOf(w.sys.local.db.payments[i])
    requires key !in w.sys.mock.refunds
    ensures
      var rows := w.sys.local.db.payments;
      && rows[i].intent.Some?
      && var (m', answer) := MockRefund(w.sys.mock, rows[i].intent.value, amount, key);
      && answer == RefundAnswered(RefundResult(key, RefundSucceeded, amount))
      && m'.refunds.Keys == w.sys.mock.refunds.Keys + {key} && m'.byKey == w.sys.mock.byKey
      && var db' := ApplyRefund(w.sys.local.db, i, Some(answer.result), amount, closes);
      && |db'.payments| == |rows| && (forall j | 0 <= j < |rows| :: db'.payments[j].key == rows[j].key)
      && LedgersBacked(db'.payments, m'.sessions, w.declined) && IntentsDistinct(m'.sessions)
  {
    var rows, sessions := w.sys.local.db.payments, w.sys.mock.sessions;
    RefundIsAccepted(w.sys.mock, w.declined, rows, i, amount, key);
    assert Backs(sessions[i], i in w.declined, rows[i], i);
    var s := sessions[i].(refunded := sessions[i].refunded + amount);
    var p := ApplyRefund(w.sys.local.db, i, Some(RefundResult(key, RefundSucceeded, amount)), amount,
                         closes).payments[i];
    PairChangeKeepsBacked(rows, sessions, w.declined, i, p, s);
  }

  /** A staff refund that is sent is accepted, and both sides record it under its key. */
  lemma StaffRefundIsAccepted(w: World, req: RefundRequest)
    requires Valid(w) && PlanRefund(w.sys.local, req).RefundCall?
    ensures
      var l, plan := w.sys.local, PlanRefund(w.sys.local, req);
      var i, amount := plan.index, plan.amount;
      && i < |l.db.payments| && l.db.payments[i].status.Succeeded? && req.Key() !in w.sys.mock.refunds
      && 0 < amount <= l.db.payments[i].amount - RefundedOf(l.db.payments[i])
      && var closes := RefundedOf(l.db.payments[i]) + amount >= l.db.payments[i].amount;
      && var (m', answer) := MockRefund(w.sys.mock, plan.intent, amount, req.Key());
      && l.db.payments[i].intent == Some(plan.intent)
      && answer == RefundAnswered(RefundResult(req.Key(), RefundSucceeded, amount))
      && var l' := Local(ApplyRefund(l.db, i, Some(answer.result), amount, closes),
                         l.entries[req.Key() := Completed(PaymentRef(i))]);
      && RefundOnMock(w.sys, req) == (System(l', m'), GotPayment(i))
      && R.RefundStep(l, req, R.RefundReplied(req.Key(), RefundSucceeded)).0 == l'
  {
    var l, plan := w.sys.local, PlanRefund(w.sys.local, req);
    R.RefundIsAdmissible(l, req);
    R.SentRefundIsNew(l, req);
    assert !RefundRecorded(l.entries, req.Key());
    RefundIsAccepted(w.sys.mock, w.declined, l.db.payments, plan.index, plan.amount, req.Key());
    SucceededRefundCompletes(l, req, plan.index, plan.amount, RefundResult(req.Key(), RefundSucceeded, plan.amount));
  }

  lemma SucceededRefundCompletes(l: Local, req: RefundRequest, i: nat, amount: int, result: RefundResult)
    requires i < |l.db.payments| && l.db.payments[i].pnr in l.db.bookings && result.status.RefundSucceeded?
    ensures FinishRefund(l.(entries := l.entries[req.Key() := InProgress]), req, i, amount, RefundAnswered(result)) ==
      (Local(ApplyRefund(l.db, i, Some(result), amount,
                         RefundedOf(l.db.payments[i]) + amount >= l.db.payments[i].amount),
             l.entries[req.Key() := Completed(PaymentRef(i))]),
       GotPayment(i))
  {
    assert l.entries[req.Key() := InProgress][req.Key() := Completed(PaymentRef(i))] ==
        l.entries[req.Key() := Completed(PaymentRef(i))];
  }

  lemma StaffRefundKeepsMoneyValid(w: World, req: RefundRequest)
    requires Valid(w) && PlanRefund(w.sys.local, req).RefundCall?
    ensures MoneyValid(w.(sys := RefundOnMock(w.sys, req).0))
  {
    var plan := PlanRefund(w.sys.local, req);
    StaffRefundIsAccepted(w, req);
    var p := w.sys.local.db.payments[plan.index];
    RefundMovesBoth(w, plan.index, plan.amount, req.Key(), RefundedOf(p) + plan.amount >= p.amount);
    RecordingKeepsKeys(w.sys, RefundOnMock(w.sys, req).0, req.Key());
  }

  /** One more recorded refund, and the payments' keys as they were. */
  lemma RecordingKeepsKeys(sys: System, sys': System, key: Key)
    requires KeysRecorded(sys) && |sys'.local.db.payments| == |sys.local.db.payments|
    requires forall i | 0 <= i < |sys.local.db.payments| ::
        sys'.local.db.payments[i].key == sys.local.db.payments[i].key
    requires forall k | k in sys.local.entries :: k in sys'.local.entries
    requires sys'.mock.byKey == sys.mock.byKey && sys'.mock.refunds.Keys <= sys.mock.refunds.Keys + {key}
    requires RefundRecorded(sys'.local.entries, key)
    ensures KeysRecorded(sys')
  {
    forall k | k in sys'.mock.refunds
      ensures RefundRecorded(sys'.local.entries, k)
    {
      if k != key { assert k in sys.mock.refunds; }
    }
    forall i | 0 <= i < |sys.local.db.payments|
      ensures sys'.local.db.payments[i].key in sys'.local.entries && sys'.local.db.payments[i].key.SessionKey?
    {
      assert sys.local.db.payments[i] in sys.local.db.payments;
    }
  }

  lemma StaffRefundKeepsValid(w: World, req: RefundRequest)
    requires Valid(w)
    ensures Valid(w.(sys := RefundOnMock(w.sys, req).0))
  {
    if PlanRefund(w.sys.local, req).RefundCall? {
      StaffRefundIsAccepted(w, req);
      StaffRefundKeepsMoneyValid(w, req);
      R.RefundStepKeepsValid(w.sys.local, req, R.RefundReplied(req.Key(), RefundSucceeded));
    } else {
      StoppedRefundChangesNothing(w.sys.local, req);
    }
  }

  lemma StoppedRefundChangesNothing(l: Local, req: RefundRequest)
    requires PlanRefund(l, req).RefundStop?
    ensures PlanRefund(l, req).local == l
  {
  }

  // ------------------------------------------------------------ cancellations

  lemma StoppedCancelChangesNothing(l: Local, req: CancelRequest, airline: AirlineAnswer<int>)
    requires R.EntriesValid(l) && PlanCancel(l, req, airline).CancelStop?
    ensures PlanCancel(l, req, airline).local == l
  {
    if req.Key() !in l.entries { assert l.entries[req.Key() := InProgress] - {req.Key()} == l.entries; }
  }

  /** A cancellation that goes ahead does so under a new key, and closes out from the state in
      which the booking is marked cancelled. */
  lemma CancelGoesAhead(l: Local, req: CancelRequest, airline: AirlineAnswer<int>)
    requires R.EntriesValid(l) && !PlanCancel(l, req, airline).CancelStop?
    ensures req.pnr in l.db.bookings && airline.AirlineDone? && req.Key() !in l.entries
    ensures
      var marked := Local(R.MarkCancelled(l.db, req.pnr), l.entries[req.Key() := InProgress]);
      PlanCancel(l, req, airline) == PlanCloseOut(marked, req.pnr, l.db.bookings[req.pnr].payment, airline.value)
  {
  }

  lemma ZeroRefundKeepsBacked(rows: seq<Payment>, sessions: seq<MockSession>, declined: set<nat>, db: Tables, i: nat)
    requires db.payments == rows && i < |rows| && rows[i].pnr in db.bookings && LedgersBacked(rows, sessions, declined)
    ensures LedgersBacked(ApplyRefund(db, i, None, 0, true).payments, sessions, declined)
  {
    assert Backs(sessions[i], i in declined, rows[i], i);
    assert sessions[i := sessions[i]] == sessions;
    PairChangeKeepsBacked(rows, sessions, declined, i, ApplyRefund(db, i, None, 0, true).payments[i], sessions[i]);
  }

  /** The airline has cancelled and the booking is marked: whatever its payment needs, both
      ledgers stay equal and the provider accepts. `marked` already holds the cancel key. */
  lemma CloseOutKeepsMoneyValid(marked: World, req: CancelRequest, refundable: int)
    requires MoneyValid(marked) && R.RowsValid(marked.sys.local.db) && req.pnr in marked.sys.local.db.bookings
    requires req.Key() in marked.sys.local.entries && req.RefundKey() !in marked.sys.mock.refunds
    ensures
      var l := marked.sys.local;
      match PlanCloseOut(l, req.pnr, l.db.bookings[req.pnr].payment, refundable)
      case CancelStop(_, _) => false
      case CancelCommit(l') => MoneyValid(marked.(sys := System(CommitCancel(l', req).0, marked.sys.mock)))
      case CancelCall(l', i, intent, amount) =>
        var (m', answer) := MockRefund(marked.sys.mock, intent, amount, req.RefundKey());
        && answer == RefundAnswered(RefundResult(req.RefundKey(), RefundSucceeded, amount))
        && i < |l'.db.payments| && l'.db.payments[i].pnr in l'.db.bookings
        && MoneyValid(marked.(sys := System(FinishCancel(l', req, i, amount, answer).0, m')))
  {
    var l, m := marked.sys.local, marked.sys.mock;
    R.CloseOutIsAdmissible(l, req.pnr, refundable);
    match PlanCloseOut(l, req.pnr, l.db.bookings[req.pnr].payment, refundable)
    case CancelCommit(l') =>
      if l' != l {
        ZeroRefundKeepsBacked(l.db.payments, m.sessions, marked.declined, l.db, Latest(l.db.payments, req.pnr).value);
      }
      RecordingKeepsKeys(marked.sys, System(CommitCancel(l', req).0, m), req.RefundKey());
    case CancelCall(_, i, _, amount) => CancelRefundKeepsMoneyValid(marked, req, i, amount);
  }

  /** A cancellation's refund moves both ledgers and is recorded under the cancel key. */
  lemma CancelRefundKeepsMoneyValid(marked: World, req: CancelRequest, i: nat, amount: int)
    requires MoneyValid(marked) && ForeignKeys(marked.sys.local.db)
    requires req.Key() in marked.sys.local.entries && req.RefundKey() !in marked.sys.mock.refunds
    requires i < |marked.sys.local.db.payments| && marked.sys.local.db.payments[i].status.Succeeded?
    requires 0 < amount <= marked.sys.local.db.payments[i].amount - RefundedOf(marked.sys.local.db.payments[i])
    ensures
      var l := marked.sys.local;
      && l.db.payments[i].intent.Some?
      && var (m', answer) := MockRefund(marked.sys.mock, l.db.payments[i].intent.value, amount, req.RefundKey());
      && answer == RefundAnswered(RefundResult(req.RefundKey(), RefundSucceeded, amount))
      && MoneyValid(marked.(sys := System(FinishCancel(l, req, i, amount, answer).0, m')))
  {
    var l := marked.sys.local;
    RefundMovesBoth(marked, i, amount, req.RefundKey(), true);
    var (m', answer) := MockRefund(marked.sys.mock, l.db.payments[i].intent.value, amount, req.RefundKey());
    RecordingKeepsKeys(marked.sys, System(FinishCancel(l, req, i, amount, answer).0, m'), req.RefundKey());
  }

  lemma CancelKeepsValid(w: World, req: CancelRequest, airline: AirlineAnswer<int>)
    requires Valid(w)
    ensures Valid(w.(sys := CancelOnMock(w.sys, req, airline).0))
  {
    var l := w.sys.local;
    if PlanCancel(l, req, airline).CancelStop? {
      StoppedCancelChangesNothing(l, req, airline);
    } else {
      CancelGoesAhead(l, req, airline);
      assert !RefundRecorded(l.entries, req.RefundKey());
      var marked := Local(R.MarkCancelled(l.db, req.pnr), l.entries[req.Key() := InProgress]);
      R.UntouchedKeepsRowsValid(l.db, marked.db);
      RecordingKeepsKeys(w.sys, System(marked, w.sys.mock), req.RefundKey());
      CloseOutKeepsMoneyValid(w.(sys := System(marked, w.sys.mock)), req, airline.value);
      R.CancelStepKeepsValid(l, req, airline, R.RefundReplied(req.RefundKey(), RefundSucceeded));
    }
  }

  // ------------------------------------------------------------ whole runs

  lemma SameMoneyKeepsMoneyValid(w: World, l': Local)
    requires MoneyValid(w) && l'.db.payments == w.sys.local.db.payments && l'.entries == w.sys.local.entries
    ensures MoneyValid(w.(sys := w.sys.(local := l')))
  {
  }

  lemma NewBookingKeepsValid(w: World, pnr: Pnr, totalPrice: nat)
    requires Valid(w)
    ensures Valid(w.(sys := w.sys.(local := AddBooking(w.sys.local, pnr, totalPrice))))
  {
    R.AddBookingKeepsValid(w.sys.local, pnr, totalPrice);
    SameMoneyKeepsMoneyValid(w, AddBooking(w.sys.local, pnr, totalPrice));
  }

  lemma ModifyKeepsValid(w: World, req: ModifyRequest, change: AirlineAnswer<nat>)
    requires Valid(w)
    ensures Valid(w.(sys := w.sys.(local := Modify(w.sys.local, req, change).0)))
  {
    R.ModifyKeepsValid(w.sys.local, req, change);
    R.ModifyMovesNoMoney(w.sys.local, req, change);
    SameMoneyKeepsMoneyValid(w, Modify(w.sys.local, req, change).0);
  }

  lemma NextKeepsValid(w: World, step: Step)
    requires Valid(w)
    ensures Valid(Next(w, step))
  {
    match step
    case StartSession(req) => StartSessionKeepsValid(w, req);
    case StaffRefund(req) => StaffRefundKeepsValid(w, req);
    case CancelBooking(req, airline) => CancelKeepsValid(w, req, airline);
    case Deliver(event) =>
      if IsLegal(w, event) {
        DeliverKeepsMoneyValid(w, event);
        R.DeliverKeepsValid(w.sys.local, event);
      }
    case NewBooking(pnr, totalPrice) => NewBookingKeepsValid(w, pnr, totalPrice);
    case ModifyBooking(req, change) => ModifyKeepsValid(w, req, change);
    case _ => CustomerStepKeepsMoneyValid(w, step);
  }

  lemma {:induction false} RunKeepsValid(w: World, steps: seq<Step>)
    requires Valid(w)
    ensures Valid(Run(w, steps))
    decreases |steps|
  {
    if steps != [] {
      NextKeepsValid(w, steps[0]);
      RunKeepsValid(Next(w, steps[0]), steps[1..]);
    }
  }

  // ------------------------------------------------------------ what every run guarantees

  /** After any run, every payment's `refunded_amount` is what the provider has refunded on
      its session, and neither exceeds the amount captured there. */
  lemma LedgersAgree(steps: seq<Step>)
    ensures
      var rows, sessions := Run(START, steps).sys.local.db.payments, Run(START, steps).sys.mock.sessions;
      && |sessions| == |rows|
      && forall i | 0 <= i < |rows| ::
           && rows[i].sessionId == i && sessions[i].amount == rows[i].amount
           && RefundedOf(rows[i]) == sessions[i].refunded
           && 0 <= sessions[i].refunded <= if sessions[i].paid then sessions[i].amount else 0
  {
    RunKeepsValid(START, steps);
    var w := Run(START, steps);
    var rows, sessions := w.sys.local.db.payments, w.sys.mock.sessions;
    forall i | 0 <= i < |rows|
      ensures Backs(sessions[i], i in w.declined, rows[i], i) && R.RefundBounded(rows[i])
    {
    }
  }

  /** The provider captures at most one session of a booking, and a booking shows PAID or
      REFUNDED only when it has captured one. */
  lemma CapturedAtMostOnce(steps: seq<Step>)
    ensures
      var db, sessions := Run(START, steps).sys.local.db, Run(START, steps).sys.mock.sessions;
      && |sessions| == |db.payments|
      && (forall i, j | 0 <= i < |sessions| && 0 <= j < |sessions| && sessions[i].paid && sessions[j].paid &&
                        db.payments[i].pnr == db.payments[j].pnr :: i == j)
      && (forall pnr | pnr in db.bookings && (db.bookings[pnr].payment.Paid? || db.bookings[pnr].payment.Refunded?) ::
            exists i | 0 <= i < |sessions| :: db.payments[i].pnr == pnr && sessions[i].paid)
  {
    RunKeepsValid(START, steps);
    var w := Run(START, steps);
    var db, sessions := w.sys.local.db, w.sys.mock.sessions;
    forall i | 0 <= i < |sessions|
      ensures Backs(sessions[i], i in w.declined, db.payments[i], i)
    {
    }
    forall i, j | 0 <= i < j < |sessions| && db.payments[i].pnr == db.payments[j].pnr
      ensures !sessions[i].paid
    {
      assert R.Dead(db.payments[i].status);
    }
    forall pnr | pnr in db.bookings && (db.bookings[pnr].payment.Paid? || db.bookings[pnr].payment.Refunded?)
      ensures exists i | 0 <= i < |sessions| :: db.payments[i].pnr == pnr && sessions[i].paid
    {
      assert R.Mirrors(db, pnr);
      var i := Latest(db.payments, pnr).value;
      assert Backs(sessions[i], i in w.declined, db.payments[i], i);
    }
  }

  /** No call reaches a refusal of the mock or a UNIQUE violation: every session the services
      ask for is created, every refund they ask for is made in full. */
  lemma ProviderNeverRefuses(steps: seq<Step>, create: SessionRequest, refund: RefundRequest, cancel: CancelRequest,
                             airline: AirlineAnswer<int>)
    ensures
      var sys := Run(START, steps).sys;
      && (PlanCreate(sys.local, create).CreateCall? ==>
            CreateOnMock(sys, create).1 == GotPayment(|sys.local.db.payments|))
      && (match PlanRefund(sys.local, refund)
          case RefundStop(_, _) => true
          case RefundCall(_, _, intent, amount) =>
            MockRefund(sys.mock, intent, amount, refund.Key()).1
              == RefundAnswered(RefundResult(refund.Key(), RefundSucceeded, amount)))
      && (match PlanCancel(sys.local, cancel, airline)
          case CancelCall(_, _, intent, amount) =>
            MockRefund(sys.mock, intent, amount, cancel.RefundKey()).1
              == RefundAnswered(RefundResult(cancel.RefundKey(), RefundSucceeded, amount))
          case _ => true)
  {
    RunKeepsValid(START, steps);
    var w := Run(START, steps);
    if PlanCreate(w.sys.local, create).CreateCall? { CreateOpensBoth(w, create); }
    if PlanRefund(w.sys.local, refund).RefundCall? { StaffRefundIsAccepted(w, refund); }
    if PlanCancel(w.sys.local, cancel, airline).CancelCall? { CancelRefundIsAccepted(w, cancel, airline); }
  }

  lemma CancelRefundIsAccepted(w: World, req: CancelRequest, airline: AirlineAnswer<int>)
    requires Valid(w) && PlanCancel(w.sys.local, req, airline).CancelCall?
    ensures
      var plan := PlanCancel(w.sys.local, req, airline);
      MockRefund(w.sys.mock, plan.intent, plan.amount, req.RefundKey()).1
        == RefundAnswered(RefundResult(req.RefundKey(), RefundSucceeded, plan.amount))
  {
    var l := w.sys.local;
    CancelGoesAhead(l, req, airline);
    assert !RefundRecorded(l.entries, req.RefundKey());
    var marked := Local(R.MarkCancelled(l.db, req.pnr), l.entries[req.Key() := InProgress]);
    R.UntouchedKeepsRowsValid(l.db, marked.db);
    R.CloseOutIsAdmissible(marked, req.pnr, airline.value);
    var plan := PlanCancel(l, req, airline);
    RefundIsAccepted(w.sys.mock, w.declined, l.db.payments, plan.index, plan.amount, req.RefundKey());
  }

  // ------------------------------------------------------------ the mock is one of the providers

  /** The step that the tables and the store take when the mock answers. */
  function AnsweredStep(w: World, step: Step): seq<R.Step>
    requires WellFormed(w)
  {
    match step
    case NewBooking(pnr, total) => [R.NewBooking(pnr, total)]
    case StartSession(req) => [R.StartSession(req, SessionCreated(|w.sys.mock.sessions|, None))]
    case Deliver(event) => if IsLegal(w, event) then [R.Deliver(event)] else []
    case StaffRefund(req) => [R.StaffRefund(req, R.RefundReplied(req.Key(), RefundSucceeded))]
    case CancelBooking(req, airline) =>
      [R.CancelBooking(req, airline, R.RefundReplied(req.RefundKey(), RefundSucceeded))]
    case ModifyBooking(req, change) => [R.ModifyBooking(req, change)]
    case _ => []
  }

  function AnsweredSteps(w: World, steps: seq<Step>): seq<R.Step>
    requires WellFormed(w)
    decreases |steps|
  {
    if steps == [] then [] else AnsweredStep(w, steps[0]) + AnsweredSteps(Next(w, steps[0]), steps[1..])
  }

  lemma CancelIsAnswered(w: World, req: CancelRequest, airline: AirlineAnswer<int>)
    requires Valid(w)
    ensures CancelOnMock(w.sys, req, airline).0.local ==
            R.CancelStep(w.sys.local, req, airline, R.RefundReplied(req.RefundKey(), RefundSucceeded)).0
  {
    if PlanCancel(w.sys.local, req, airline).CancelCall? { CancelRefundIsAccepted(w, req, airline); }
  }

  lemma CreateIsAnswered(w: World, req: SessionRequest)
    requires Valid(w)
    ensures CreateOnMock(w.sys, req).0.local ==
        CreateSession(w.sys.local, req, SessionCreated(|w.sys.mock.sessions|, None)).0
  {
    if PlanCreate(w.sys.local, req).CreateCall? { CreateOpensBoth(w, req); }
  }

  lemma RefundIsAnswered(w: World, req: RefundRequest)
    requires Valid(w)
    ensures RefundOnMock(w.sys, req).0.local ==
        R.RefundStep(w.sys.local, req, R.RefundReplied(req.Key(), RefundSucceeded)).0
  {
    if PlanRefund(w.sys.local, req).RefundCall? { StaffRefundIsAccepted(w, req); }
  }

  lemma NextIsAnswered(w: World, step: Step)
    requires Valid(w)
    ensures Next(w, step).sys.local == R.Run(w.sys.local, AnsweredStep(w, step))
  {
    var answered := AnsweredStep(w, step);
    if answered != [] {
      assert answered[1..] == [] && R.Run(w.sys.local, answered) == R.Next(w.sys.local, answered[0]);
    }
    match step
    case StartSession(req) => CreateIsAnswered(w, req);
    case StaffRefund(req) => RefundIsAnswered(w, req);
    case CancelBooking(req, airline) => CancelIsAnswered(w, req, airline);
    case _ =>
  }

  /** Every run with the mock is, on the tables and the store, a run with a provider that
      echoes: whatever holds of all those holds with the mock. */
  lemma {:induction false} MockRunsAreProviderRuns(w: World, steps: seq<Step>)
    requires Valid(w)
    ensures Run(w, steps).sys.local == R.Run(w.sys.local, AnsweredSteps(w, steps))
    decreases |steps|
  {
    if steps != [] {
      NextKeepsValid(w, steps[0]);
      NextIsAnswered(w, steps[0]);
      MockRunsAreProviderRuns(Next(w, steps[0]), steps[1..]);
      R.RunAppends(w.sys.local, AnsweredStep(w, steps[0]), AnsweredSteps(Next(w, steps[0]), steps[1..]));
    }
  }
}
