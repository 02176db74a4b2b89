/** Refunds under any interleaving: the provider's ledger is the sum over the keys, each counted
    once; and runs in which a refund is completed and in which one is left behind. */
module RefundsOnce {
  import opened Wrappers
  import opened SessionStateMachine
  import opened Idempotency
  import opened PaymentTables
  import opened PaymentProvider
  import opened PaymentSteps
  import opened ExactlyOnce
  import K = StuckKeys

  // ------------------------------------------------------------ the ledger is the sum over the keys

  function TotalRefunded(sessions: seq<MockSession>): int {
    if sessions == [] then 0 else TotalRefunded(sessions[..|sessions| - 1]) + sessions[|sessions| - 1].refunded
  }

  /** What the refunds recorded under the listed keys come to. */
  function RefundedUnder(keys: seq<Key>, refunds: map<Key, RefundResult>): int {
    if keys == [] then 0
    else
      var last := keys[|keys| - 1];
      RefundedUnder(keys[..|keys| - 1], refunds) + if last in refunds then refunds[last].amount else 0
  }

  lemma {:induction false} TotalAfterChange(sessions: seq<MockSession>, i: nat, s: MockSession)
    requires i < |sessions|
    ensures TotalRefunded(sessions[i := s]) == TotalRefunded(sessions) - sessions[i].refunded + s.refunded
    decreases |sessions|
  {
    var last := |sessions| - 1;
    if i == last {
      assert sessions[i := s][..last] == sessions[..last];
    } else {
      assert sessions[i := s][..last] == sessions[..last][i := s];
      TotalAfterChange(sessions[..last], i, s);
    }
  }

  lemma TotalAfterOpening(sessions: seq<MockSession>, s: MockSession)
    ensures TotalRefunded(sessions + [s]) == TotalRefunded(sessions) + s.refunded
  {
    assert (sessions + [s])[..|sessions|] == sessions;
  }

  lemma {:induction false} OtherRefundsDoNotCount(keys: seq<Key>, refunds: map<Key, RefundResult>, key: Key,
                                                  result: RefundResult)
    requires key !in keys
    ensures RefundedUnder(keys, refunds[key := result]) == RefundedUnder(keys, refunds)
    decreases |keys|
  {
    if keys != [] {
      assert keys[|keys| - 1] in keys;
      OtherRefundsDoNotCount(keys[..|keys| - 1], refunds, key, result);
    }
  }

  lemma OneMoreKey(keys: seq<Key>, key: Key, refunds: map<Key, RefundResult>)
    ensures RefundedUnder(keys + [key], refunds) ==
        RefundedUnder(keys, refunds) + if key in refunds then refunds[key].amount else 0
  {
    assert (keys + [key])[..|keys|] == keys;
  }

  ghost predicate Balanced(s: State) {
    TotalRefunded(s.mock.sessions) == RefundedUnder(s.effects, s.mock.refunds)
  }

  lemma RefundKeepsBalanced(s: State, key: Key, intent: nat, amount: int)
    requires LedgerValid(s) && Balanced(s) && key.RefundKey?
    ensures
      var (mock, answer) := MockRefund(s.mock, intent, amount, key);
      answer.RefundAnswered? ==>
        Balanced(s.(mock := mock, effects := Noted(s.effects, key, key !in s.mock.refunds)))
  {
    var (mock, answer) := MockRefund(s.mock, intent, amount, key);
    if answer.RefundAnswered? && key !in s.mock.refunds {
      var i := SessionOfIntent(s.mock.sessions, intent).value;
      TotalAfterChange(s.mock.sessions, i, mock.sessions[i]);
      assert key !in s.mock.byKey && key !in s.seen && key !in s.effects;
      OtherRefundsDoNotCount(s.effects, s.mock.refunds, key, answer.result);
      OneMoreKey(s.effects, key, mock.refunds);
    }
  }

  lemma CallKeepsBalanced(s: State, t: nat, task: Task)
    requires Valid(s) && Balanced(s)
    ensures Balanced(Called(s, t, task))
  {
    match task
    case SessionTask(_, amount) =>
      TotalAfterOpening(s.mock.sessions, MockSession(amount, SessionOpen, false, None, 0));
      OneMoreKey(s.effects, task.Key(), s.mock.refunds);
    case RefundTask(_, _, intent, amount, _) => RefundKeepsBalanced(s, task.Key(), intent, amount);
    case BookingTask(_, _, _, _) => OneMoreKey(s.effects, task.Key(), s.mock.refunds);
  }

  lemma NextKeepsBalanced(s: State, step: Step)
    requires Valid(s) && Balanced(s)
    ensures Balanced(Next(s, step))
  {
    match step
    case CallProvider(t) => if PhaseOf(s, t).Calling? { CallKeepsBalanced(s, t, PhaseOf(s, t).task); }
    case CustomerCompletes(i, paid, intent) =>
      if i < |s.mock.sessions| {
        TotalAfterChange(s.mock.sessions, i, MockComplete(s.mock, i, paid, intent).sessions[i]);
      }
    case CommitCall(t, storageFails) => CommitMovesNoMoney(s, t, storageFails);
    case _ =>
  }

  lemma CommitMovesNoMoney(s: State, t: nat, storageFails: bool)
    requires MockValid(s.mock)
    ensures
      var s' := Next(s, CommitCall(t, storageFails));
      s'.mock == s.mock && s'.effects == s.effects
  {
  }

  lemma {:induction false} RunKeepsBalanced(s: State, steps: seq<Step>)
    requires Valid(s) && Balanced(s)
    ensures Balanced(Run(s, steps))
    decreases |steps|
  {
    if steps != [] {
      NextKeepsBalanced(s, steps[0]);
      NextKeepsValid(s, steps[0]);
      RunKeepsBalanced(Next(s, steps[0]), steps[1..]);
    }
  }

  /** However calls and retries are interleaved, what the provider has refunded altogether is the
      sum of one refund for each key under which it made one, and each of those keys occurs once. */
  lemma RefundedOncePerKey(steps: seq<Step>)
    ensures
      var s := Run(START, steps);
      && TotalRefunded(s.mock.sessions) == RefundedUnder(s.effects, s.mock.refunds)
      && Distinct(s.effects) && (forall key | key in s.mock.refunds :: key in s.effects)
  {
    RunKeepsValid(START, steps);
    RunKeepsBalanced(START, steps);
  }

  /** A refund that commits adds its amount to the payment's column exactly when the column still
      says what the call read before `begin`: otherwise a refund under another key is lost there. */
  lemma RefundIsAddedExactlyWhen(s: State, t: nat, task: Task, result: RefundResult)
    requires MockValid(s.mock) && t in s.threads && s.threads[t] == Committing(task, GotRefund(result))
    requires task.RefundTask? && task.index < |s.db.payments|
    ensures
      var s' := Next(s, CommitCall(t, false));
      && |s'.db.payments| == |s.db.payments| && s'.commits == s.commits + [task.Key()]
      && (RefundedOf(s'.db.payments[task.index]) == RefundedOf(s.db.payments[task.index]) + result.amount <==>
            RefundedOf(task.stale) == RefundedOf(s.db.payments[task.index]))
  {
  }

  // ------------------------------------------------------------ it does happen

  const BOOKING := BookingTask("b", "P", 100, true)
  const SESSION := SessionTask(SessionRequest(true, "P", "a"), 100)
  const OPEN_ROW := Payment("P", SessionKey("a"), 0, None, Pending, 100, None, None, None)
  const PAID_ROW := OPEN_ROW.(status := Succeeded, intent := Some(7))
  const REFUND := RefundTask(RefundRequest(true, "P", None, "r"), 0, 7, 100, PAID_ROW)
  const MADE := RefundResult(RefundKey("r"), RefundSucceeded, 100)

  function Begins(task: Task): seq<Step> {
    [BeginCall(0, task), CallProvider(0)]
  }

  function Ends(storageFails: bool): seq<Step> {
    [CommitCall(0, storageFails), EndCall(0)]
  }

  const PAYS: seq<Step> := [CustomerCompletes(0, true, 7), WebhookSettles(0, Succeeded, 7)]

  lemma {:induction false} RunAppends(s: State, a: seq<Step>, b: seq<Step>)
    requires MockValid(s.mock)
    ensures Run(s, a + b) == Run(Run(s, a), b)
    decreases |a|
  {
    if a == [] {
      assert a + b == b;
    } else {
      assert (a + b)[1..] == a[1..] + b;
      RunAppends(Next(s, a[0]), a[1..], b);
    }
  }

  lemma RunOfTwo(s: State, a: Step, b: Step)
    requires MockValid(s.mock)
    ensures Run(s, [a, b]) == Next(Next(s, a), b)
  {
    var s1 := Next(s, a);
    var s2 := Next(s1, b);
    assert [a, b][1..] == [b] && [b][1..] == [];
    assert Run(s2, []) == s2;
    assert Run(s1, [b]) == s2;
  }

  const BOOKING_CALLED := START.(
    entries := map[BookingKey("b") := InProgress], threads := map[0 := Committing(BOOKING, GotAirline(0))],
    seen := map[BookingKey("b") := 0], effects := [BookingKey("b")])

  lemma BookingIsCalled()
    ensures Run(START, Begins(BOOKING)) == BOOKING_CALLED
  {
    RunOfTwo(START, BeginCall(0, BOOKING), CallProvider(0));
    var s1 := START.(entries := map[BookingKey("b") := InProgress], threads := map[0 := Calling(BOOKING)]);
    assert Next(START, BeginCall(0, BOOKING)) == s1;
    assert Next(s1, CallProvider(0)) == BOOKING_CALLED;
  }

  const BOOKED := BOOKING_CALLED.(
    entries := map[BookingKey("b") := Completed(BookingRef("P"))], threads := map[0 := Done(GotBooking(false))],
    db := Tables(map["P" := Booking(Confirmed, Unpaid, 100)], []), commits := [BookingKey("b")])

  lemma BookingIsMade()
    ensures Run(BOOKING_CALLED, Ends(false)) == BOOKED
  {
    RunOfTwo(BOOKING_CALLED, CommitCall(0, false), EndCall(0));
    var s1 := BOOKED.(entries := BOOKING_CALLED.entries, threads := map[0 := Completing(BOOKING, BookingRef("P"))]);
    assert Next(BOOKING_CALLED, CommitCall(0, false)) == s1;
    assert Next(s1, EndCall(0)) == BOOKED;
  }

  const SESSION_CALLED := BOOKED.(
    entries := BOOKED.entries[SessionKey("a") := InProgress],
    threads := map[0 := Committing(SESSION, GotSession(0, None))],
    mock := MockState([MockSession(100, SessionOpen, false, None, 0)], map[SessionKey("a") := 0], map[]),
    effects := [BookingKey("b"), SessionKey("a")])

  lemma SessionIsCalled()
    ensures Run(BOOKED, Begins(SESSION)) == SESSION_CALLED
  {
    RunOfTwo(BOOKED, BeginCall(0, SESSION), CallProvider(0));
    var s1 := BOOKED.(entries := SESSION_CALLED.entries, threads := map[0 := Calling(SESSION)]);
    assert Next(BOOKED, BeginCall(0, SESSION)) == s1;
    assert Next(s1, CallProvider(0)) == SESSION_CALLED;
  }

  const STARTED := SESSION_CALLED.(
    entries := BOOKED.entries[SessionKey("a") := Completed(PaymentRef(0))], threads := map[0 := Done(GotPayment(0))],
    db := Tables(map["P" := Booking(Confirmed, PaymentPending, 100)], [OPEN_ROW]),
    commits := [BookingKey("b"), SessionKey("a")])

  lemma SessionIsStarted()
    ensures Run(SESSION_CALLED, Ends(false)) == STARTED
  {
    RunOfTwo(SESSION_CALLED, CommitCall(0, false), EndCall(0));
    SessionIsCommitted();
    assert Next(SESSION_COMMITTED, EndCall(0)) == STARTED;
  }

  const SESSION_COMMITTED := STARTED.(
    entries := SESSION_CALLED.entries, threads := map[0 := Completing(SESSION, PaymentRef(0))])

  lemma SessionIsCommitted()
    ensures Next(SESSION_CALLED, CommitCall(0, false)) == SESSION_COMMITTED
  {
  }

  const PAID := STARTED.(
    mock := STARTED.mock.(sessions := [MockSession(100, SessionComplete, true, Some(7), 0)]),
    db := STARTED.db.(payments := [PAID_ROW]))

  lemma SessionIsPaid()
    ensures Run(STARTED, PAYS) == PAID
  {
    RunOfTwo(STARTED, CustomerCompletes(0, true, 7), WebhookSettles(0, Succeeded, 7));
    var s1 := PAID.(db := STARTED.db);
    assert Next(STARTED, CustomerCompletes(0, true, 7)) == s1;
    assert Next(s1, WebhookSettles(0, Succeeded, 7)) == PAID;
  }

  /** The provider has made the refund and the thread is about to commit it. */
  const REFUNDING := PAID.(
    entries := PAID.entries[RefundKey("r") := InProgress], threads := map[0 := Committing(REFUND, GotRefund(MADE))],
    mock := PAID.mock.(sessions := [MockSession(100, SessionComplete, true, Some(7), 100)],
                       refunds := map[RefundKey("r") := MADE]),
    effects := PAID.effects + [RefundKey("r")])

  lemma RefundIsCalled()
    ensures Run(PAID, Begins(REFUND)) == REFUNDING
  {
    RunOfTwo(PAID, BeginCall(0, REFUND), CallProvider(0));
    RefundIsBegun();
    RefundIsMade();
  }

  const REFUND_BEGUN := PAID.(entries := REFUNDING.entries, threads := map[0 := Calling(REFUND)])

  lemma RefundIsBegun()
    ensures Next(PAID, BeginCall(0, REFUND)) == REFUND_BEGUN
  {
  }

  lemma RefundIsMade()
    ensures Next(REFUND_BEGUN, CallProvider(0)) == REFUNDING
  {
    ProviderMakesTheRefund();
  }

  lemma ProviderMakesTheRefund()
    ensures MockRefund(PAID.mock, 7, 100, RefundKey("r")) == (REFUNDING.mock, RefundAnswered(MADE))
  {
    var sessions := PAID.mock.sessions;
    assert sessions[0].intent == Some(7) && SessionOfIntent(sessions, 7) == Some(0);
    assert sessions[0 := sessions[0].(refunded := 100)] == REFUNDING.mock.sessions;
    assert PAID.mock.refunds == map[] && RefundKey("r") !in PAID.mock.refunds;
    assert PAID.mock.refunds[RefundKey("r") := MADE] == REFUNDING.mock.refunds;
  }

  /** A booking is made, its session started and paid, and a refund made by the provider. */
  function UpToRefund(rest: seq<Step>): seq<Step> {
    Begins(BOOKING) + (Ends(false) + (Begins(SESSION) + (Ends(false) + (PAYS + (Begins(REFUND) + rest)))))
  }

  lemma BookedThen(rest: seq<Step>)
    ensures Run(START, Begins(BOOKING) + (Ends(false) + rest)) == Run(BOOKED, rest)
  {
    BookingIsCalled();
    BookingIsMade();
    RunAppends(START, Begins(BOOKING), Ends(false) + rest);
    RunAppends(BOOKING_CALLED, Ends(false), rest);
  }

  lemma StartedThen(rest: seq<Step>)
    ensures Run(BOOKED, Begins(SESSION) + (Ends(false) + rest)) == Run(STARTED, rest)
  {
    SessionIsCalled();
    SessionIsStarted();
    RunAppends(BOOKED, Begins(SESSION), Ends(false) + rest);
    RunAppends(SESSION_CALLED, Ends(false), rest);
  }

  lemma RefundingThen(rest: seq<Step>)
    ensures Run(STARTED, PAYS + (Begins(REFUND) + rest)) == Run(REFUNDING, rest)
  {
    SessionIsPaid();
    RefundIsCalled();
    RunAppends(STARTED, PAYS, Begins(REFUND) + rest);
    RunAppends(PAID, Begins(REFUND), rest);
  }

  lemma UpToRefundReaches(rest: seq<Step>)
    ensures Run(START, UpToRefund(rest)) == Run(REFUNDING, rest)
  {
    RefundingThen(rest);
    StartedThen(PAYS + (Begins(REFUND) + rest));
    BookedThen(Begins(SESSION) + (Ends(false) + (PAYS + (Begins(REFUND) + rest))));
  }

  const REFUNDED := REFUNDING.(
    entries := PAID.entries[RefundKey("r") := Completed(PaymentRef(0))], threads := map[0 := Done(GotPayment(0))],
    db := PAID.db.(payments := [PAID_ROW.(refunded := Some(100), refundStatus := Some(RefundSucceeded))]),
    commits := PAID.commits + [RefundKey("r")])

  /** A refund that goes through: made once by the provider, committed once, and answered. */
  lemma RefundIsCompleted()
    ensures Run(START, UpToRefund(Ends(false))) == REFUNDED
  {
    UpToRefundReaches(Ends(false));
    RunOfTwo(REFUNDING, CommitCall(0, false), EndCall(0));
    RefundIsCommitted();
    RefundIsEnded();
  }

  lemma RefundIsEnded()
    ensures Next(REFUND_COMMITTED, EndCall(0)) == REFUNDED
  {
  }

  const REFUND_COMMITTED := REFUNDED.(
    entries := REFUNDING.entries, threads := map[0 := Completing(REFUND, PaymentRef(0))])

  lemma RefundIsCommitted()
    ensures Next(REFUNDING, CommitCall(0, false)) == REFUND_COMMITTED
  {
  }

  const LEFT_BEHIND := REFUNDING.(threads := map[0 := Done(Raised(DatabaseRejected))], abandoned := {RefundKey("r")})

  lemma LeftBehindIsReached()
    ensures Run(START, UpToRefund(Ends(true))) == LEFT_BEHIND
  {
    UpToRefundReaches(Ends(true));
    RunOfTwo(REFUNDING, CommitCall(0, true), EndCall(0));
    RefundIsNotCommitted();
  }

  lemma RefundIsNotCommitted()
    ensures Next(REFUNDING, CommitCall(0, true)) == LEFT_BEHIND && Next(LEFT_BEHIND, EndCall(0)) == LEFT_BEHIND
  {
  }

  /** A refund whose commit fails: the provider's ledger holds it, the payment row does not, and
      its key stays in progress over every continuation. */
  lemma RefundIsLeftBehind()
    ensures Run(START, UpToRefund(Ends(true))) == LEFT_BEHIND
    ensures LEFT_BEHIND.mock.sessions[0].refunded == 100 && LEFT_BEHIND.db.payments == [PAID_ROW]
    ensures forall more :: K.IsInProgress(Run(LEFT_BEHIND, more), RefundKey("r"))
  {
    LeftBehindIsReached();
    forall more
      ensures K.IsInProgress(Run(LEFT_BEHIND, more), RefundKey("r"))
    {
      K.LeftBehindForEver(UpToRefund(Ends(true)), more, RefundKey("r"));
    }
  }
}
