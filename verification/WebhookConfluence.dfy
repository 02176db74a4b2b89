/** Webhooks may arrive late, twice and in any order: what a payment's status ends up as
    depends only on which events were delivered. */
module WebhookConfluence {
  import opened Wrappers
  import opened SessionStateMachine
  import opened Idempotency
  import opened PaymentTables
  import opened PaymentProvider
  import opened PaymentSteps
  import R = PaymentRuns
  import M = TwoLedgers

  /** The part of a webhook event that decides a session's status. */
  datatype Signal = Signal(kind: EventType, paid: Option<bool>) {
    function Implied(): Option<SessionStatus> { NewStatusFor(kind, paid) }
  }

  function Settle(status: SessionStatus, signals: seq<Signal>): SessionStatus
    decreases |signals|
  {
    if signals == [] then status
    else Settle(Advance(status, signals[0].kind, signals[0].paid), signals[1..])
  }

  ghost predicate Implies(signals: set<Signal>, status: SessionStatus) {
    exists s | s in signals :: s.Implied() == Some(status)
  }

  /** At most one terminal status is implied, and not both EXPIRED and PROCESSING. */
  ghost predicate Compatible(signals: set<Signal>) {
    && !(Implies(signals, Succeeded) && Implies(signals, Failed))
    && !(Implies(signals, Succeeded) && Implies(signals, Expired))
    && !(Implies(signals, Failed) && Implies(signals, Expired))
    && !(Implies(signals, Processing) && Implies(signals, Expired))
  }

  /** The status a set of delivered events leads to. */
  ghost function Final(signals: set<Signal>): SessionStatus {
    if Implies(signals, Succeeded) then Succeeded
    else if Implies(signals, Failed) then Failed
    else if Implies(signals, Expired) then Expired
    else if Implies(signals, Processing) then Processing
    else Pending
  }

  function Elems(signals: seq<Signal>): set<Signal> {
    set s | s in signals
  }

  // ------------------------------------------------------------ order does not matter

  lemma TerminalStays(status: SessionStatus, signals: seq<Signal>)
    requires IsTerminal(status)
    ensures Settle(status, signals) == status
  {
  }

  lemma ProcessingNeverExpires(signals: seq<Signal>)
    ensures Settle(Processing, signals) != Expired
  {
    if signals != [] {
      var next := Advance(Processing, signals[0].kind, signals[0].paid);
      if IsTerminal(next) { TerminalStays(next, signals[1..]); }
    }
  }

  lemma {:induction false} SettleSnoc(status: SessionStatus, signals: seq<Signal>, last: Signal)
    ensures Settle(status, signals + [last]) == Advance(Settle(status, signals), last.kind, last.paid)
    decreases |signals|
  {
    if signals == [] {
      assert [last][1..] == [];
    } else {
      assert (signals + [last])[1..] == signals[1..] + [last];
      SettleSnoc(Advance(status, signals[0].kind, signals[0].paid), signals[1..], last);
    }
  }

  lemma ImpliesAfter(signals: set<Signal>, last: Signal, status: SessionStatus)
    ensures Implies(signals + {last}, status) <==> Implies(signals, status) || last.Implied() == Some(status)
  {
    assert last in signals + {last};
    if Implies(signals, status) {
      var s :| s in signals && s.Implied() == Some(status);
      assert s in signals + {last};
    }
  }

  /** Every order and every duplication of compatible events ends in the same status. */
  lemma {:induction false} SettlesToFinal(signals: seq<Signal>)
    requires Compatible(Elems(signals))
    ensures Settle(Pending, signals) == Final(Elems(signals))
    decreases |signals|
  {
    if signals != [] {
      var init, last := signals[..|signals| - 1], signals[|signals| - 1];
      assert signals == init + [last];
      assert Elems(signals) == Elems(init) + {last};
      forall status
        ensures Implies(Elems(signals), status) <==> Implies(Elems(init), status) || last.Implied() == Some(status)
      {
        ImpliesAfter(Elems(init), last, status);
      }
      SettlesToFinal(init);
      SettleSnoc(Pending, init, last);
    }
  }

  ghost function Listed(signals: set<Signal>): (listed: seq<Signal>)
    ensures Elems(listed) == signals
  {
    if signals == {} then []
    else
      var s :| s in signals;
      var rest := Listed(signals - {s});
      assert Elems([s] + rest) == {s} + Elems(rest);
      [s] + rest
  }

  lemma FirstDecides(signals: set<Signal>, first: Signal)
    requires first in signals
    ensures Elems([first] + Listed(signals)) == signals
    ensures Settle(Pending, [first] + Listed(signals)) ==
            Settle(Advance(Pending, first.kind, first.paid), Listed(signals))
  {
    assert ([first] + Listed(signals))[1..] == Listed(signals);
  }

  ghost function Implying(signals: set<Signal>, status: SessionStatus): (s: Signal)
    requires Implies(signals, status)
    ensures s in signals && s.Implied() == Some(status)
  {
    var s :| s in signals && s.Implied() == Some(status);
    s
  }

  ghost predicate OrderFree(signals: set<Signal>) {
    forall a, b | Elems(a) == signals && Elems(b) == signals :: Settle(Pending, a) == Settle(Pending, b)
  }

  lemma IncompatibleIsNotOrderFree(signals: set<Signal>, x: Signal, y: Signal)
    requires x in signals && y in signals
    requires x.Implied().Some? && y.Implied().Some? && x.Implied() != y.Implied() && IsTerminal(x.Implied().value)
    requires IsTerminal(y.Implied().value) || (x.Implied() == Some(Expired) && y.Implied() == Some(Processing))
    ensures !OrderFree(signals)
  {
    FirstTerminalWins(signals, x);
    if IsTerminal(y.Implied().value) {
      FirstTerminalWins(signals, y);
    } else {
      FirstDecides(signals, y);
      ProcessingNeverExpires(Listed(signals));
    }
    TwoOrdersDiffer(signals, [x] + Listed(signals), [y] + Listed(signals));
  }

  lemma TwoOrdersDiffer(signals: set<Signal>, a: seq<Signal>, b: seq<Signal>)
    requires Elems(a) == signals && Elems(b) == signals && Settle(Pending, a) != Settle(Pending, b)
    ensures !OrderFree(signals)
  {
  }

  lemma FirstTerminalWins(signals: set<Signal>, first: Signal)
    requires first in signals && first.Implied().Some? && IsTerminal(first.Implied().value)
    ensures Elems([first] + Listed(signals)) == signals
    ensures Settle(Pending, [first] + Listed(signals)) == first.Implied().value
  {
    FirstDecides(signals, first);
    TerminalStays(first.Implied().value, Listed(signals));
  }

  /** Delivery order is irrelevant for a set of events exactly when they are compatible. */
  lemma OrderFreeExactlyWhen(signals: set<Signal>)
    ensures OrderFree(signals) <==> Compatible(signals)
  {
    if Compatible(signals) {
      forall a, b | Elems(a) == signals && Elems(b) == signals
        ensures Settle(Pending, a) == Settle(Pending, b)
      {
        SettlesToFinal(a);
        SettlesToFinal(b);
      }
    } else {
      var t, u :| Implies(signals, t) && Implies(signals, u) && t != u && IsTerminal(t) &&
                  (IsTerminal(u) || (t == Expired && u == Processing));
      IncompatibleIsNotOrderFree(signals, Implying(signals, t), Implying(signals, u));
    }
  }

  // ------------------------------------------------------------ deliveries between other calls

  /** The events delivered for one session that the store has not seen, irrelevant types included. */
  function NewSignals(entries: Entries, steps: seq<R.Step>, sessionId: nat): set<Signal> {
    set step | step in steps && step.Deliver? && step.event.session == Some(sessionId) &&
        EventKey(step.event.id) !in entries ::
      Signal(step.event.kind, step.event.paid)
  }

  /** An event id names one event. */
  ghost predicate IdsNameEvents(steps: seq<R.Step>) {
    forall a, b | a in steps && b in steps && a.Deliver? && b.Deliver? && a.event.id == b.event.id :: a == b
  }

  predicate Accepts(l: Local, step: R.Step, sessionId: nat) {
    step.Deliver? && step.event.session == Some(sessionId) && EventKey(step.event.id) !in l.entries
  }

  /** The events of one session that a run acts on, in order: the others are duplicates. */
  function Accepted(l: Local, steps: seq<R.Step>, sessionId: nat): seq<Signal>
    requires ForeignKeys(l.db)
    decreases |steps|
  {
    if steps == [] then []
    else
      var rest := Accepted(R.Next(l, steps[0]), steps[1..], sessionId);
      if Accepts(l, steps[0], sessionId) then [Signal(steps[0].event.kind, steps[0].event.paid)] + rest else rest
  }

  /** The payment as far as webhooks are concerned. */
  predicate SameStatus(db: Tables, db': Tables, i: nat)
    requires i < |db.payments|
  {
    i < |db'.payments| && db'.payments[i].sessionId == db.payments[i].sessionId &&
        db'.payments[i].status == db.payments[i].status
  }

  lemma WebhookAdvances(l: Local, event: WebhookEvent, i: nat)
    requires R.RowsValid(l.db) && i < |l.db.payments|
    ensures
      var db' := Webhook(l, event).0.db;
      && i < |db'.payments| && db'.payments[i].sessionId == l.db.payments[i].sessionId
      && db'.payments[i].status ==
         if event.session == Some(l.db.payments[i].sessionId) && EventKey(event.id) !in l.entries
         then Advance(l.db.payments[i].status, event.kind, event.paid)
         else l.db.payments[i].status
  {
    if event.session.Some? {
      var found := BySession(l.db.payments, event.session.value);
      if found.Some? && event.session.value == l.db.payments[i].sessionId { assert found == Some(i); }
    }
  }

  lemma RefundKeepsStatus(l: Local, req: RefundRequest, reply: R.RefundReply, i: nat)
    requires ForeignKeys(l.db) && i < |l.db.payments|
    ensures SameStatus(l.db, R.RefundStep(l, req, reply).0.db, i)
  {
  }

  lemma CancelKeepsStatus(l: Local, req: CancelRequest, airline: AirlineAnswer<int>, reply: R.RefundReply, i: nat)
    requires ForeignKeys(l.db) && i < |l.db.payments|
    ensures SameStatus(l.db, R.CancelStep(l, req, airline, reply).0.db, i)
  {
    if !PlanCancel(l, req, airline).CancelStop? { R.CancelStepClosesOut(l, req, airline, reply); }
  }

  lemma CreateKeepsStatus(l: Local, req: SessionRequest, answer: SessionAnswer, i: nat)
    requires i < |l.db.payments|
    ensures SameStatus(l.db, CreateSession(l, req, answer).0.db, i)
  {
  }

  lemma CallsKeepStatus(l: Local, step: R.Step, i: nat)
    requires ForeignKeys(l.db) && i < |l.db.payments| && !step.Deliver?
    ensures SameStatus(l.db, R.Next(l, step).db, i)
  {
    match step
    case StartSession(req, answer) => CreateKeepsStatus(l, req, answer, i);
    case StaffRefund(req, reply) => RefundKeepsStatus(l, req, reply, i);
    case CancelBooking(req, airline, reply) => CancelKeepsStatus(l, req, airline, reply, i);
    case _ =>
  }

  /** Calls neither add nor remove event ids; a delivery adds its own. */
  lemma EventIdsAfterStep(l: Local, step: R.Step, id: string)
    requires ForeignKeys(l.db)
    ensures EventKey(id) in R.Next(l, step).entries <==>
            EventKey(id) in l.entries || (step.Deliver? && step.event.id == id)
  {
    if step.CancelBooking? && !PlanCancel(l, step.cancel, step.airline).CancelStop? {
      R.CancelStepClosesOut(l, step.cancel, step.airline, step.reply);
    }
  }

  /** Deduplication drops deliveries but no event: what a run acts on is what is new in it. */
  lemma {:induction false} AcceptedAreNew(l: Local, steps: seq<R.Step>, sessionId: nat)
    requires ForeignKeys(l.db) && IdsNameEvents(steps)
    ensures Elems(Accepted(l, steps, sessionId)) == NewSignals(l.entries, steps, sessionId)
    decreases |steps|
  {
    if steps != [] {
      var first, l' := steps[0], R.Next(l, steps[0]);
      AcceptedAreNew(l', steps[1..], sessionId);
      var rest, all := NewSignals(l'.entries, steps[1..], sessionId), NewSignals(l.entries, steps, sessionId);
      forall step | step in steps[1..] && step.Deliver?
        ensures EventKey(step.event.id) in l'.entries <==> EventKey(step.event.id) in l.entries || step == first
      {
        EventIdsAfterStep(l, first, step.event.id);
        assert step in steps && first in steps;
      }
      assert forall step | step in steps[1..] :: step in steps;
      var head := if Accepts(l, first, sessionId) then {Signal(first.event.kind, first.event.paid)} else {};
      forall s | s in all
        ensures s in head + rest
      {
        var step :| step in steps && step.Deliver? && step.event.session == Some(sessionId) &&
                    EventKey(step.event.id) !in l.entries && s == Signal(step.event.kind, step.event.paid);
        if step != first { assert step in steps[1..]; }
      }
      forall s | s in head + rest
        ensures s in all
      {
        if s !in head {
          var step :| step in steps[1..] && step.Deliver? && step.event.session == Some(sessionId) &&
                      EventKey(step.event.id) !in l'.entries && s == Signal(step.event.kind, step.event.paid);
          assert step in steps;
        }
      }
      assert Elems(Accepted(l, steps, sessionId)) == head + Elems(Accepted(l', steps[1..], sessionId));
    }
  }

  lemma {:induction false} StatusAfterRun(l: Local, steps: seq<R.Step>, i: nat)
    requires R.Valid(l) && i < |l.db.payments|
    ensures i < |R.Run(l, steps).db.payments|
    ensures R.Run(l, steps).db.payments[i].status ==
            Settle(l.db.payments[i].status, Accepted(l, steps, l.db.payments[i].sessionId))
    decreases |steps|
  {
    if steps != [] {
      var l' := R.Next(l, steps[0]);
      if steps[0].Deliver? { WebhookAdvances(l, steps[0].event, i); } else { CallsKeepStatus(l, steps[0], i); }
      R.NextKeepsValid(l, steps[0]);
      StatusAfterRun(l', steps[1..], i);
      var accepted := Accepted(l, steps, l.db.payments[i].sessionId);
      if Accepts(l, steps[0], l.db.payments[i].sessionId) {
        assert accepted[1..] == Accepted(l', steps[1..], l.db.payments[i].sessionId);
      }
    }
  }

  /** In any run from a state where a payment is pending, whatever calls are interleaved, the
      payment ends in the status that the set of new events for its session implies, provided
      those events are compatible. */
  lemma StatusIsOrderFree(l: Local, steps: seq<R.Step>, i: nat)
    requires R.Valid(l) && i < |l.db.payments| && l.db.payments[i].status.Pending? && IdsNameEvents(steps)
    requires Compatible(NewSignals(l.entries, steps, l.db.payments[i].sessionId))
    ensures i < |R.Run(l, steps).db.payments|
    ensures R.Run(l, steps).db.payments[i].status == Final(NewSignals(l.entries, steps, l.db.payments[i].sessionId))
  {
    StatusAfterRun(l, steps, i);
    AcceptedAreNew(l, steps, l.db.payments[i].sessionId);
    SettlesToFinal(Accepted(l, steps, l.db.payments[i].sessionId));
  }

  // ------------------------------------------------------------ what one session can emit

  predicate StillBacks(s: MockSession, declined: bool, s': MockSession, declined': bool) {
    && (s.status.SessionComplete? ==> s'.status.SessionComplete? && s'.intent == s.intent)
    && (s.status.SessionOver? ==> s'.status.SessionOver? && s'.intent == s.intent)
    && (s.paid ==> s'.paid) && (declined ==> declined')
  }

  lemma RefundOnlyAdvances(m: MockState, intent: nat, amount: int, key: Key, i: nat, declined: bool)
    requires i < |m.sessions|
    ensures
      var m' := MockRefund(m, intent, amount, key).0;
      i < |m'.sessions| && StillBacks(m.sessions[i], declined, m'.sessions[i], declined)
  {
  }

  lemma ServicesOnlyAdvance(w: M.World, step: M.Step, i: nat)
    requires M.WellFormed(w) && i < |w.sys.mock.sessions|
    requires step.StartSession? || step.StaffRefund? || step.CancelBooking?
    ensures i < |M.Next(w, step).sys.mock.sessions|
    ensures StillBacks(w.sys.mock.sessions[i], i in w.declined, M.Next(w, step).sys.mock.sessions[i],
                       i in M.Next(w, step).declined)
  {
    var m, local := w.sys.mock, w.sys.local;
    match step
    case StartSession(req) =>
      var plan := PlanCreate(local, req);
      if plan.CreateCall? { assert M.Next(w, step).sys.mock == MockCreateSession(m, req.Key(), plan.amount).0; }
    case StaffRefund(req) =>
      var plan := PlanRefund(local, req);
      if plan.RefundCall? { RefundOnlyAdvances(m, plan.intent, plan.amount, req.Key(), i, i in w.declined); }
    case CancelBooking(req, airline) =>
      var plan := PlanCancel(local, req, airline);
      if plan.CancelCall? { RefundOnlyAdvances(m, plan.intent, plan.amount, req.RefundKey(), i, i in w.declined); }
  }

  lemma CustomersOnlyAdvance(w: M.World, step: M.Step, i: nat)
    requires M.MoneyValid(w) && M.WellFormed(w) && i < |w.sys.mock.sessions|
    requires step.CustomerCompletes? || step.PaymentSettles? || step.PaymentDeclines? || step.SessionExpires?
    ensures i < |M.Next(w, step).sys.mock.sessions|
    ensures StillBacks(w.sys.mock.sessions[i], i in w.declined, M.Next(w, step).sys.mock.sessions[i],
                       i in M.Next(w, step).declined)
  {
    assert M.Backs(w.sys.mock.sessions[i], i in w.declined, w.sys.local.db.payments[i], i);
  }

  /** A session's completion, capture, expiry and intent are never undone. */
  lemma SessionsOnlyAdvance(w: M.World, step: M.Step, i: nat)
    requires M.Valid(w) && i < |w.sys.mock.sessions|
    ensures i < |M.Next(w, step).sys.mock.sessions|
    ensures StillBacks(w.sys.mock.sessions[i], i in w.declined, M.Next(w, step).sys.mock.sessions[i],
                       i in M.Next(w, step).declined)
  {
    if step.StartSession? || step.StaffRefund? || step.CancelBooking? {
      ServicesOnlyAdvance(w, step, i);
    } else if step.CustomerCompletes? || step.PaymentSettles? || step.PaymentDeclines? || step.SessionExpires? {
      CustomersOnlyAdvance(w, step, i);
    } else {
      assert M.Next(w, step).sys.mock == w.sys.mock;
    }
  }

  /** What may be reported about a session may be reported about it later. */
  lemma ReportsPersist(s: MockSession, declined: bool, s': MockSession, declined': bool, p: Payment, i: nat,
                       event: WebhookEvent)
    requires M.Backs(s, declined, p, i) && StillBacks(s, declined, s', declined')
    requires IsRelevant(event.kind) && M.Reports(s, declined, event)
    ensures M.Reports(s', declined', event)
  {
  }

  ghost predicate ReportsAll(s: MockSession, declined: bool, delivered: seq<R.Step>, i: nat) {
    forall step | step in delivered && step.Deliver? && step.event.session == Some(i) && IsRelevant(step.event.kind) ::
      M.Reports(s, declined, step.event)
  }

  lemma AnsweredAreReports(w: M.World, step: M.Step, i: nat)
    requires M.Valid(w) && i < |w.sys.mock.sessions|
    ensures ReportsAll(w.sys.mock.sessions[i], i in w.declined, M.AnsweredStep(w, step), i)
  {
    var answered := M.AnsweredStep(w, step);
    forall r | r in answered && r.Deliver?
      ensures step == M.Deliver(r.event) && M.IsLegal(w, r.event)
    {
      assert r == answered[0];
    }
  }

  /** Every event delivered for session `i` over a run is one the provider may still report at its end. */
  lemma {:induction false} DeliveredAreReports(w: M.World, steps: seq<M.Step>, i: nat)
    requires M.Valid(w) && i < |w.sys.mock.sessions|
    ensures
      var w' := M.Run(w, steps);
      && i < |w'.sys.mock.sessions|
      && StillBacks(w.sys.mock.sessions[i], i in w.declined, w'.sys.mock.sessions[i], i in w'.declined)
      && ReportsAll(w'.sys.mock.sessions[i], i in w'.declined, M.AnsweredSteps(w, steps), i)
    decreases |steps|
  {
    if steps != [] {
      M.NextKeepsValid(w, steps[0]);
      SessionsOnlyAdvance(w, steps[0], i);
      AnsweredAreReports(w, steps[0], i);
      DeliveredAreReports(M.Next(w, steps[0]), steps[1..], i);
      var s, declined := w.sys.mock.sessions[i], i in w.declined;
      var s', declined' := M.Run(w, steps).sys.mock.sessions[i], i in M.Run(w, steps).declined;
      AllReportsPersist(s, declined, s', declined', w.sys.local.db.payments[i], i, M.AnsweredStep(w, steps[0])) by {
        assert M.Backs(s, declined, w.sys.local.db.payments[i], i);
      }
    }
  }

  lemma AllReportsPersist(s: MockSession, declined: bool, s': MockSession, declined': bool, p: Payment, i: nat,
                          delivered: seq<R.Step>)
    requires M.Backs(s, declined, p, i) && StillBacks(s, declined, s', declined') &&
        ReportsAll(s, declined, delivered, i)
    ensures ReportsAll(s', declined', delivered, i)
  {
    forall step | step in delivered && step.Deliver? && step.event.session == Some(i) && IsRelevant(step.event.kind)
      ensures M.Reports(s', declined', step.event)
    {
      ReportsPersist(s, declined, s', declined', p, i, step.event);
    }
  }

  /** What a session in one state may have reported never implies two outcomes. */
  lemma ReportsAreCompatible(s: MockSession, declined: bool, p: Payment, i: nat, signals: set<Signal>)
    requires M.Backs(s, declined, p, i)
    requires forall signal | signal in signals && IsRelevant(signal.kind) ::
               exists event: WebhookEvent :: Signal(event.kind, event.paid) == signal && M.Reports(s, declined, event)
    ensures Compatible(signals)
  {
  }

  /** What is delivered for one session over a run with the mock is always compatible. */
  lemma MockSignalsAreCompatible(w: M.World, steps: seq<M.Step>, i: nat)
    requires M.Valid(w) && i < |w.sys.mock.sessions|
    ensures Compatible(NewSignals(w.sys.local.entries, M.AnsweredSteps(w, steps), i))
  {
    var answered := M.AnsweredSteps(w, steps);
    var signals := NewSignals(w.sys.local.entries, answered, i);
    DeliveredAreReports(w, steps, i);
    M.RunKeepsValid(w, steps);
    var w' := M.Run(w, steps);
    var s, declined := w'.sys.mock.sessions[i], i in w'.declined;
    forall signal | signal in signals && IsRelevant(signal.kind)
      ensures exists event: WebhookEvent :: Signal(event.kind, event.paid) == signal && M.Reports(s, declined, event)
    {
      var step :| step in answered && step.Deliver? && step.event.session == Some(i) &&
          signal == Signal(step.event.kind, step.event.paid);
      assert M.Reports(s, declined, step.event);
    }
    assert M.Backs(s, declined, w'.sys.local.db.payments[i], i);
    ReportsAreCompatible(s, declined, w'.sys.local.db.payments[i], i, signals);
  }

  /** With the mock no side condition is left: the events its sessions can emit, delivered in
      any order, any number of times and between any calls, leave each payment in the status
      their set implies. */
  lemma MockStatusIsOrderFree(w: M.World, steps: seq<M.Step>, i: nat)
    requires M.Valid(w) && i < |w.sys.local.db.payments| && w.sys.local.db.payments[i].status.Pending?
    requires IdsNameEvents(M.AnsweredSteps(w, steps))
    ensures
      var rows := M.Run(w, steps).sys.local.db.payments;
      && i < |rows|
      && rows[i].status == Final(NewSignals(w.sys.local.entries, M.AnsweredSteps(w, steps), i))
  {
    assert M.Backs(w.sys.mock.sessions[i], i in w.declined, w.sys.local.db.payments[i], i);
    MockSignalsAreCompatible(w, steps, i);
    M.MockRunsAreProviderRuns(w, steps);
    StatusIsOrderFree(w.sys.local, M.AnsweredSteps(w, steps), i);
  }

  // ------------------------------------------------------------ when a payment is recorded

  /** From a state in which a payment is pending, compatible events lead it to SUCCEEDED exactly
      when one that implies it is delivered under an id the store has not seen. */
  lemma SucceedsExactlyWhen(l: Local, steps: seq<R.Step>, i: nat)
    requires R.Valid(l) && i < |l.db.payments| && l.db.payments[i].status.Pending? && IdsNameEvents(steps)
    requires Compatible(NewSignals(l.entries, steps, l.db.payments[i].sessionId))
    ensures i < |R.Run(l, steps).db.payments|
    ensures R.Run(l, steps).db.payments[i].status.Succeeded? <==>
            exists step | step in steps ::
                ReportsSuccess(step, l.db.payments[i].sessionId) && EventKey(step.event.id) !in l.entries
  {
    var sessionId := l.db.payments[i].sessionId;
    var signals := NewSignals(l.entries, steps, sessionId);
    StatusIsOrderFree(l, steps, i);
    if Implies(signals, Succeeded) {
      var s :| s in signals && s.Implied() == Some(Succeeded);
      var step :| step in steps && step.Deliver? && step.event.session == Some(sessionId) &&
                  EventKey(step.event.id) !in l.entries && s == Signal(step.event.kind, step.event.paid);
      assert ReportsSuccess(step, sessionId);
    }
    if step :| step in steps && ReportsSuccess(step, sessionId) && EventKey(step.event.id) !in l.entries {
      var s := Signal(step.event.kind, step.event.paid);
      assert s in signals && s.Implied() == Some(Succeeded);
    }
  }

  predicate ReportsSuccess(step: R.Step, sessionId: nat) {
    step.Deliver? && step.event.session == Some(sessionId) &&
        NewStatusFor(step.event.kind, step.event.paid) == Some(Succeeded)
  }

  /** A payment row is committed as pending. What was delivered for its session before that, and
      was consumed as unmatched, does not count: it reaches SUCCEEDED exactly when some event that
      reports success comes afterwards under an id that had not come before. */
  lemma NewPaymentSucceedsExactlyWhen(before: seq<R.Step>, req: SessionRequest, answer: SessionAnswer,
                                      after: seq<R.Step>)
    requires PlanCreate(R.Run(R.EMPTY, before), req).CreateCall?
    requires CreateSession(R.Run(R.EMPTY, before), req, answer).1.GotPayment? && IdsNameEvents(after)
    requires
      var l' := CreateSession(R.Run(R.EMPTY, before), req, answer).0;
      answer.SessionCreated? && Compatible(NewSignals(l'.entries, after, answer.sessionId))
    ensures
      var l := R.Run(R.EMPTY, before);
      var l' := CreateSession(l, req, answer).0;
      var i := |l.db.payments|;
      && i < |R.Run(l', after).db.payments|
      && (R.Run(l', after).db.payments[i].status.Succeeded? <==>
            exists step | step in after :: ReportsSuccess(step, answer.sessionId) && !Delivered(before, step.event.id))
  {
    R.RunKeepsValid(R.EMPTY, before);
    var l := R.Run(R.EMPTY, before);
    SessionStartsPending(l, req, answer);
    SucceedsExactlyWhen(CreateSession(l, req, answer).0, after, |l.db.payments|);
    forall id ensures EventKey(id) in CreateSession(l, req, answer).0.entries <==> Delivered(before, id) {
      EventIdsAfterStep(l, R.StartSession(req, answer), id);
      SeenExactlyWhenDelivered(before, id);
    }
  }

  lemma SessionStartsPending(l: Local, req: SessionRequest, answer: SessionAnswer)
    requires R.Valid(l) && PlanCreate(l, req).CreateCall? && CreateSession(l, req, answer).1.GotPayment?
    ensures
      var l' := CreateSession(l, req, answer).0;
      && R.Valid(l') && answer.SessionCreated? && |l'.db.payments| == |l.db.payments| + 1
      && l'.db.payments[|l.db.payments|].status.Pending?
      && l'.db.payments[|l.db.payments|].sessionId == answer.sessionId
  {
    R.StartSessionKeepsValid(l, req, answer);
    R.StartIsAdmissible(l, req);
    NewRowIsPending(PlanCreate(l, req).local, req, PlanCreate(l, req).amount, answer);
  }

  lemma NewRowIsPending(l: Local, req: SessionRequest, amount: nat, answer: SessionAnswer)
    requires req.pnr in l.db.bookings && FinishCreate(l, req, amount, answer).1.GotPayment?
    ensures
      var rows := FinishCreate(l, req, amount, answer).0.db.payments;
      && answer.SessionCreated? && |rows| == |l.db.payments| + 1
      && rows[|l.db.payments|].status.Pending? && rows[|l.db.payments|].sessionId == answer.sessionId
  {
  }

  ghost predicate Delivered(steps: seq<R.Step>, id: string) {
    exists step | step in steps :: step.Deliver? && step.event.id == id
  }

  /** The store has seen exactly the event ids that were delivered. */
  lemma {:induction false} SeenExactlyWhenDelivered(steps: seq<R.Step>, id: string)
    ensures EventKey(id) in R.Run(R.EMPTY, steps).entries <==> Delivered(steps, id)
    decreases |steps|
  {
    if steps != [] {
      var init, last := steps[..|steps| - 1], steps[|steps| - 1];
      SeenExactlyWhenDelivered(init, id);
      R.RunOneMore(R.EMPTY, steps);
      EventIdsAfterStep(R.Run(R.EMPTY, init), last, id);
      DeliveredOneMore(steps, id);
    }
  }

  lemma DeliveredOneMore(steps: seq<R.Step>, id: string)
    requires steps != []
    ensures
      var last := steps[|steps| - 1];
      Delivered(steps, id) <==> Delivered(steps[..|steps| - 1], id) || (last.Deliver? && last.event.id == id)
  {
    var init, last := steps[..|steps| - 1], steps[|steps| - 1];
    assert steps == init + [last];
    if Delivered(init, id) {
      var step :| step in init && step.Deliver? && step.event.id == id;
      assert step in steps;
    }
    if Delivered(steps, id) {
      var step :| step in steps && step.Deliver? && step.event.id == id;
      assert step in init || step == last;
    }
  }

  /** With the mock no condition on the events is left here either. */
  lemma MockPaymentSucceedsExactlyWhen(w: M.World, steps: seq<M.Step>, i: nat)
    requires M.Valid(w) && i < |w.sys.local.db.payments| && w.sys.local.db.payments[i].status.Pending?
    requires IdsNameEvents(M.AnsweredSteps(w, steps))
    ensures i < |M.Run(w, steps).sys.local.db.payments|
    ensures M.Run(w, steps).sys.local.db.payments[i].status.Succeeded? <==>
            exists step | step in M.AnsweredSteps(w, steps) ::
              ReportsSuccess(step, i) && EventKey(step.event.id) !in w.sys.local.entries
  {
    assert M.Backs(w.sys.mock.sessions[i], i in w.declined, w.sys.local.db.payments[i], i);
    MockSignalsAreCompatible(w, steps, i);
    M.MockRunsAreProviderRuns(w, steps);
    SucceedsExactlyWhen(w.sys.local, M.AnsweredSteps(w, steps), i);
  }

  const EARLY := WebhookEvent("e", SessionCompleted, Some(0), Some(7), Some(true))

  const EARLY_BOOKING: seq<R.Step> := [R.NewBooking("P", 100), R.Deliver(EARLY)]

  const EARLY_STATE := Local(
    Tables(map["P" := Booking(Confirmed, Unpaid, 100)], []), map[EventKey("e") := Completed(EventOutcome)])

  lemma EarlyStateIsReached()
    ensures R.Run(R.EMPTY, EARLY_BOOKING) == EARLY_STATE
  {
    var l1 := R.Next(R.EMPTY, EARLY_BOOKING[0]);
    assert l1 == Local(Tables(map["P" := Booking(Confirmed, Unpaid, 100)], []), map[]);
    assert R.Next(l1, EARLY_BOOKING[1]) == EARLY_STATE;
    assert R.Run(EARLY_STATE, EARLY_BOOKING[1..][1..]) == EARLY_STATE;
    assert R.Run(l1, EARLY_BOOKING[1..]) == EARLY_STATE;
  }

  lemma EarlyEventMatchesNothing(l: Local)
    requires EventKey("e") !in l.entries && BySession(l.db.payments, 0).None? && ForeignKeys(l.db)
    ensures Webhook(l, EARLY).1 == UnmatchedSession
  {
  }

  lemma EarlySessionIsStarted()
    ensures
      var l' := CreateSession(EARLY_STATE, SessionRequest(true, "P", "a"), SessionCreated(0, None)).0;
      && |l'.db.payments| == 1 && l'.db.payments[0].status.Pending? && l'.db.payments[0].sessionId == 0
      && EventKey("e") in l'.entries
  {
  }

  /** A run in which a captured payment stays pending: the event that reports it comes before its
      row is committed and is consumed as unmatched; sent again, it is a duplicate. */
  lemma EarlyEventIsLost()
    ensures
      var l' := CreateSession(R.Run(R.EMPTY, EARLY_BOOKING), SessionRequest(true, "P", "a"), SessionCreated(0, None)).0;
      && Webhook(AddBooking(R.EMPTY, "P", 100), EARLY).1 == UnmatchedSession
      && |l'.db.payments| == 1 && l'.db.payments[0].status.Pending? && l'.db.payments[0].sessionId == 0
      && Webhook(l', EARLY) == (l', DuplicateEvent)
  {
    EarlyStateIsReached();
    EarlyEventMatchesNothing(AddBooking(R.EMPTY, "P", 100));
    EarlySessionIsStarted();
  }
}
