/** Any number of threads running `create_payment_session`, `refund_payment` and
    `create_booking` against one store, one payment provider, one airline and one database,
    interleaved between begin, provider call, commit and complete-or-fail, while customers
    complete their sessions and webhooks settle payment rows. Whatever a thread read before
    `begin` may be stale: a task carries arbitrary values for it. */
module ExactlyOnce {
  import opened Wrappers
  import opened SessionStateMachine
  import opened Idempotency
  import opened PaymentTables
  import opened PaymentProvider
  import opened PaymentSteps

  datatype Task =
    | SessionTask(session: SessionRequest, amount: nat)
    | RefundTask(refund: RefundRequest, index: nat, intent: nat, amountRefunded: int, stale: Payment)
    | BookingTask(id: string, newPnr: Pnr, total: nat, quoteValid: bool)
  {
    function Key(): Key {
      match this
      case SessionTask(req, _) => req.Key()
      case RefundTask(req, _, _, _, _) => req.Key()
      case BookingTask(id, _, _, _) => BookingKey(id)
    }
  }

  datatype Answer =
    | GotSession(sessionId: nat, intent: Option<nat>)
    | GotRefund(result: RefundResult)
    | GotAirline(ref: nat)

  datatype Phase =
    | Idle
    | Calling(task: Task)
    | Committing(task: Task, answer: Answer)
    | Completing(task: Task, ref: StoredRef)
    | Failing(task: Task)
    | Done(outcome: Outcome)
  {
    /** Between a `begin` that returned None and its `complete` or `fail`. */
    predicate Holds(key: Key) {
      match this
      case Calling(task) => task.Key() == key
      case Committing(task, _) => task.Key() == key
      case Completing(task, _) => task.Key() == key
      case Failing(task) => task.Key() == key
      case _ => false
    }
  }

  /** `seen` is the airline's own key-to-booking map. `effects` and `commits` record, in order,
      the keys under which a provider did something new and under which a transaction committed;
      `abandoned` the keys that a failed commit has left behind. */
  datatype State = State(
    entries: Entries,
    mock: MockState,
    seen: map<Key, nat>,
    db: Tables,
    threads: map<nat, Phase>,
    effects: seq<Key>,
    commits: seq<Key>,
    abandoned: set<Key>)

  datatype Step =
    | BeginCall(thread: nat, task: Task)
    | CallProvider(thread: nat)
    | CommitCall(thread: nat, storageFails: bool)
    | EndCall(thread: nat)
    | CustomerCompletes(sessionId: nat, paid: bool, intent: nat)
    | WebhookSettles(index: nat, status: SessionStatus, intent: nat)

  function PhaseOf(s: State, t: nat): Phase {
    if t in s.threads then s.threads[t] else Idle
  }

  function Move(s: State, t: nat, phase: Phase): State {
    s.(threads := s.threads[t := phase])
  }

  /** What a cached entry makes a call return at once; None means carry on. */
  function Replay(db: Tables, task: Task, cached: Option<Stored>): Option<Outcome> {
    match task
    case BookingTask(_, _, _, _) =>
      (match cached
       case None => None
       case Some(InProgress) => Some(Raised(RequestInProgress))
       case Some(Completed(BookingRef(pnr))) => if pnr in db.bookings then Some(GotBooking(false)) else None
       case Some(Completed(_)) => Some(Raised(MalformedStoredResult)))
    case _ => ReplayPayment(db, cached)
  }

  function Begun(s: State, t: nat, task: Task): State {
    var (entries, cached) := Begin(s.entries, task.Key());
    match Replay(s.db, task, cached)
    case Some(outcome) => Move(s, t, Done(outcome))
    case None => Move(s.(entries := entries), t, Calling(task))
  }

  function Called(s: State, t: nat, task: Task): State
    requires MockValid(s.mock)
  {
    var key := task.Key();
    match task
    case SessionTask(_, amount) =>
      var (mock, answer) := MockCreateSession(s.mock, key, amount);
      Move(s.(mock := mock, effects := Noted(s.effects, key, key !in s.mock.byKey)), t,
           Committing(task, GotSession(answer.sessionId, answer.intent)))
    case RefundTask(_, _, intent, amount, _) =>
      var (mock, answer) := MockRefund(s.mock, intent, amount, key);
      if answer.RefundRaised? then Move(s, t, Failing(task))
      else Move(s.(mock := mock, effects := Noted(s.effects, key, key !in s.mock.refunds)), t,
                Committing(task, GotRefund(answer.result)))
    case BookingTask(_, _, _, quoteValid) =>
      if key in s.seen then Move(s, t, Committing(task, GotAirline(s.seen[key])))
      else if !quoteValid then Move(s, t, Failing(task))
      else Move(s.(seen := s.seen[key := |s.seen|], effects := Noted(s.effects, key, true)), t,
                Committing(task, GotAirline(|s.seen|)))
  }

  function Noted(log: seq<Key>, key: Key, happened: bool): seq<Key> {
    if happened then log + [key] else log
  }

  function Commit(s: State, t: nat, task: Task, answer: Answer): State {
    match (task, answer)
    case (SessionTask(req, amount), GotSession(sessionId, intent)) =>
      var p := NewPayment(req, amount, sessionId, intent);
      if req.pnr !in s.db.bookings || ViolatesUnique(s.db.payments, p) then Move(s, t, Failing(task))
      else
        var booking := s.db.bookings[req.pnr].(payment := PaymentPending);
        Move(s.(db := Tables(s.db.bookings[req.pnr := booking], s.db.payments + [p]),
                commits := s.commits + [task.Key()]),
             t, Completing(task, PaymentRef(|s.db.payments|)))
    case (RefundTask(_, i, _, _, stale), GotRefund(result)) =>
      if i >= |s.db.payments| then s
      else
        var p := s.db.payments[i].(refunded := Some(RefundedOf(stale) + result.amount),
                                   refundStatus := Some(result.status));
        Move(s.(db := s.db.(payments := s.db.payments[i := p]), commits := s.commits + [task.Key()]),
             t, Completing(task, PaymentRef(i)))
    case (BookingTask(_, pnr, total, _), GotAirline(_)) =>
      if pnr in s.db.bookings then Move(s, t, Failing(task))
      else
        Move(s.(db := s.db.(bookings := s.db.bookings[pnr := Booking(Confirmed, Unpaid, total)]),
                commits := s.commits + [task.Key()]),
             t, Completing(task, BookingRef(pnr)))
    case _ => s
  }

  /** The row a refund is about was read before `begin`. */
  predicate Readable(db: Tables, task: Task) {
    task.RefundTask? ==> task.index < |db.payments|
  }

  /** A commit that fails: `create_payment_session` and `create_booking` go on to release their
      key, while in `refund_payment` the exception leaves it as it is. */
  function CommitFailed(s: State, t: nat, task: Task): State {
    if task.RefundTask? then Move(s.(abandoned := s.abandoned + {task.Key()}), t, Done(Raised(DatabaseRejected)))
    else Move(s, t, Failing(task))
  }

  /** One atomic step of one thread; a step the thread is not ready for changes nothing. */
  function Next(s: State, step: Step): (s': State)
    requires MockValid(s.mock)
    ensures MockValid(s'.mock)
  {
    match step
    case BeginCall(t, task) =>
      if (PhaseOf(s, t).Idle? || PhaseOf(s, t).Done?) && Readable(s.db, task) then Begun(s, t, task) else s
    case CallProvider(t) => if PhaseOf(s, t).Calling? then Called(s, t, PhaseOf(s, t).task) else s
    case CommitCall(t, storageFails) =>
      var phase := PhaseOf(s, t);
      if !phase.Committing? then s
      else if storageFails then CommitFailed(s, t, phase.task)
      else Commit(s, t, phase.task, phase.answer)
    case EndCall(t) =>
      var phase := PhaseOf(s, t);
      if phase.Completing? then
        Move(s.(entries := s.entries[phase.task.Key() := Completed(phase.ref)]), t,
             Done(if phase.ref.PaymentRef? then GotPayment(phase.ref.index) else GotBooking(false)))
      else if phase.Failing? then
        Move(s.(entries := s.entries - {phase.task.Key()}), t, Done(Raised(ProviderFailed)))
      else s
    case CustomerCompletes(i, paid, intent) =>
      if i < |s.mock.sessions| then s.(mock := MockComplete(s.mock, i, paid, intent)) else s
    case WebhookSettles(i, status, intent) =>
      if i >= |s.db.payments| then s
      else
        var p := s.db.payments[i].(status := status, intent := Some(intent));
        s.(db := s.db.(payments := s.db.payments[i := p]))
  }

  /** A step outside the calls: of a customer, or a webhook's. */
  predicate IsOutside(step: Step) {
    step.CustomerCompletes? || step.WebhookSettles?
  }

  // ------------------------------------------------------------ the invariant

  ghost predicate HeldAreInProgress(s: State) {
    forall t, key | t in s.threads && s.threads[t].Holds(key) :: key in s.entries && s.entries[key].InProgress?
  }

  ghost predicate HeldOnce(s: State) {
    forall t, u, key | t in s.threads && u in s.threads && s.threads[t].Holds(key) && s.threads[u].Holds(key) :: t == u
  }

  ghost predicate Exclusive(s: State) {
    HeldAreInProgress(s) && HeldOnce(s)
  }

  /** A stored reference names a row; a session's names the row with its own key. */
  predicate Resolves(db: Tables, key: Key, ref: StoredRef) {
    match key
    case SessionKey(_) => ref.PaymentRef? && ref.index < |db.payments| && db.payments[ref.index].key == key
    case RefundKey(_) => ref.PaymentRef? && ref.index < |db.payments|
    case BookingKey(_) => ref.BookingRef? && ref.pnr in db.bookings
    case _ => true
  }

  ghost predicate Distinct(log: seq<Key>) {
    forall i, j | 0 <= i < j < |log| :: log[i] != log[j]
  }

  predicate PhaseValid(s: State, phase: Phase) {
    match phase
    case Calling(task) => task.Key() !in s.commits
    case Committing(task, answer) =>
      && task.Key() !in s.commits
      && (match task
          case SessionTask(_, _) => answer.GotSession? && task.Key() in s.mock.byKey &&
              s.mock.byKey[task.Key()] == answer.sessionId
          case RefundTask(_, _, _, _, _) => answer.GotRefund?
          case BookingTask(_, _, _, _) => answer.GotAirline?)
    case Completing(task, ref) => task.Key() in s.commits && Resolves(s.db, task.Key(), ref)
    case Failing(task) => task.Key() !in s.commits
    case _ => true
  }

  ghost predicate StoreValid(s: State) {
    && (forall key | key in s.entries && s.entries[key].Completed? ::
        key in s.commits && Resolves(s.db, key, s.entries[key].result))
    && (forall key | key in s.commits :: key in s.entries)
  }

  ghost predicate HasKey(m: MockState, i: nat) {
    exists key :: key in m.byKey && m.byKey[key] == i
  }

  ghost predicate LedgerValid(s: State) {
    && MockValid(s.mock)
    && (forall a, b | a in s.mock.byKey && b in s.mock.byKey && s.mock.byKey[a] == s.mock.byKey[b] :: a == b)
    && (forall i | 0 <= i < |s.mock.sessions| :: HasKey(s.mock, i))
    && Distinct(s.effects)
    && (forall key :: key in s.effects <==> key in s.mock.byKey || key in s.mock.refunds || key in s.seen)
    && (forall key | key in s.mock.byKey :: key.SessionKey?)
    && (forall key | key in s.mock.refunds :: key.RefundKey?)
    && (forall key | key in s.seen :: key.BookingKey?)
  }

  ghost predicate RowsRecorded(s: State) {
    && Distinct(s.commits)
    && (forall i | 0 <= i < |s.db.payments| ::
          var p := s.db.payments[i];
          p.key.SessionKey? && p.key in s.commits && p.key in s.mock.byKey && s.mock.byKey[p.key] == p.sessionId)
    && (forall i, j | 0 <= i < j < |s.db.payments| :: s.db.payments[i].key != s.db.payments[j].key)
  }

  ghost predicate Valid(s: State) {
    && Exclusive(s)
    && (forall t | t in s.threads :: PhaseValid(s, s.threads[t]))
    && StoreValid(s)
    && LedgerValid(s)
    && RowsRecorded(s)
  }

  const START := State(map[], MockState([], map[], map[]), map[], Tables(map[], []), map[], [], [], {})

  // ------------------------------------------------------------ every step keeps the invariant

  lemma MoveKeepsExclusive(s: State, s': State, t: nat, phase: Phase)
    requires Exclusive(s) && s'.entries == s.entries && s'.threads == s.threads[t := phase]
    requires forall key | phase.Holds(key) :: PhaseOf(s, t).Holds(key)
    ensures Exclusive(s')
  {
  }

  /** A thread that moves on without touching the shared state or gaining a key. */
  lemma MoveKeepsValid(s: State, t: nat, phase: Phase)
    requires Valid(s) && PhaseValid(s, phase)
    requires forall key | phase.Holds(key) :: PhaseOf(s, t).Holds(key)
    ensures Valid(Move(s, t, phase))
  {
    MoveKeepsExclusive(s, Move(s, t, phase), t, phase);
  }

  /** `begin` lets a thread on only when the key is new to the store. */
  lemma BeginAdmitsOnlyNewKeys(s: State, task: Task)
    requires StoreValid(s)
    ensures Replay(s.db, task, Begin(s.entries, task.Key()).1).None? <==> task.Key() !in s.entries
  {
  }

  lemma BeginKeepsValid(s: State, t: nat, task: Task)
    requires Valid(s) && (PhaseOf(s, t).Idle? || PhaseOf(s, t).Done?)
    ensures Valid(Begun(s, t, task))
  {
    BeginAdmitsOnlyNewKeys(s, task);
    if task.Key() in s.entries {
      MoveKeepsValid(s, t, Begun(s, t, task).threads[t]);
    }
  }

  /** The providers' side changes and one thread that holds a key moves on. */
  lemma CallKeepsValid(s: State, s': State, t: nat, phase: Phase)
    requires Valid(s) && LedgerValid(s')
    requires s' == Move(s.(mock := s'.mock, seen := s'.seen, effects := s'.effects), t, phase)
    requires forall key | key in s.mock.byKey :: key in s'.mock.byKey && s'.mock.byKey[key] == s.mock.byKey[key]
    requires PhaseValid(s', phase) && (forall key | phase.Holds(key) :: PhaseOf(s, t).Holds(key))
    ensures Valid(s')
  {
    MoveKeepsExclusive(s, s', t, phase);
    forall u | u in s'.threads
      ensures PhaseValid(s', s'.threads[u])
    {
      if u != t { assert PhaseValid(s, s.threads[u]); }
    }
  }

  lemma SessionCallKeepsLedger(s: State, s': State, key: Key, amount: nat)
    requires LedgerValid(s) && key.SessionKey? && s'.seen == s.seen
    requires s'.mock == MockCreateSession(s.mock, key, amount).0
    requires s'.effects == Noted(s.effects, key, key !in s.mock.byKey)
    ensures LedgerValid(s')
  {
    var m, m' := s.mock, s'.mock;
    forall i | 0 <= i < |m'.sessions|
      ensures HasKey(m', i)
    {
      if i < |m.sessions| {
        assert HasKey(m, i);
        var k :| k in m.byKey && m.byKey[k] == i;
        assert k in m'.byKey && m'.byKey[k] == i;
      } else {
        assert m'.byKey[key] == i;
      }
    }
  }

  lemma RefundCallKeepsLedger(s: State, s': State, key: Key, intent: nat, amount: int)
    requires LedgerValid(s) && key.RefundKey? && s'.seen == s.seen
    requires MockRefund(s.mock, intent, amount, key).1.RefundAnswered? &&
        s'.mock == MockRefund(s.mock, intent, amount, key).0
    requires s'.effects == Noted(s.effects, key, key !in s.mock.refunds)
    ensures LedgerValid(s')
  {
    var m, m' := s.mock, s'.mock;
    assert m'.byKey == m.byKey && |m'.sessions| == |m.sessions| && m'.refunds.Keys == m.refunds.Keys + {key};
    forall i | 0 <= i < |m'.sessions|
      ensures HasKey(m', i)
    {
      assert HasKey(m, i);
    }
  }

  lemma RefundCalledKeepsValid(s: State, t: nat, task: Task)
    requires Valid(s) && t in s.threads && s.threads[t] == Calling(task) && task.RefundTask?
    ensures Valid(Called(s, t, task))
  {
    var s' := Called(s, t, task);
    assert PhaseValid(s, s.threads[t]);
    if s'.threads[t].Committing? { RefundCallKeepsLedger(s, s', task.Key(), task.intent, task.amountRefunded); }
    CallKeepsValid(s, s', t, s'.threads[t]);
  }

  lemma CalledKeepsValid(s: State, t: nat, task: Task)
    requires Valid(s) && t in s.threads && s.threads[t] == Calling(task)
    ensures Valid(Called(s, t, task))
  {
    var s' := Called(s, t, task);
    assert PhaseValid(s, s.threads[t]);
    match task
    case SessionTask(_, amount) =>
      SessionCallKeepsLedger(s, s', task.Key(), amount);
      CallKeepsValid(s, s', t, s'.threads[t]);
    case RefundTask(_, _, _, _, _) => RefundCalledKeepsValid(s, t, task);
    case BookingTask(_, _, _, _) =>
      CallKeepsValid(s, s', t, s'.threads[t]);
  }

  /** The database gains a commit under the key of one thread, which moves on to complete it. */
  lemma CommitKeepsPhases(s: State, s': State, t: nat, ref: StoredRef)
    requires Valid(s) && t in s.threads && s.threads[t].Committing?
    requires s' == Move(s.(db := s'.db, commits := s.commits + [s.threads[t].task.Key()]), t,
                        Completing(s.threads[t].task, ref))
    requires Resolves(s'.db, s.threads[t].task.Key(), ref)
    requires forall key, r | Resolves(s.db, key, r) :: Resolves(s'.db, key, r)
    requires RowsRecorded(s')
    ensures Valid(s')
  {
    assert PhaseValid(s, s.threads[t]) && s.threads[t].Holds(s.threads[t].task.Key());
    MoveKeepsExclusive(s, s', t, s'.threads[t]);
    assert StoreValid(s');
    forall u | u in s'.threads && u != t
      ensures PhaseValid(s', s'.threads[u])
    {
      OtherPhasesSurviveCommit(s, s', t, u);
    }
  }

  lemma OtherPhasesSurviveCommit(s: State, s': State, t: nat, u: nat)
    requires Exclusive(s) && t in s.threads && s.threads[t].Committing? && u in s.threads && u != t
    requires PhaseValid(s, s.threads[u])
    requires s'.mock == s.mock && s'.commits == s.commits + [s.threads[t].task.Key()]
    requires forall key, r | Resolves(s.db, key, r) :: Resolves(s'.db, key, r)
    ensures PhaseValid(s', s.threads[u])
  {
    var key := s.threads[t].task.Key();
    assert s.threads[t].Holds(key) && !s.threads[u].Holds(key);
  }

  lemma SessionCommitKeepsValid(s: State, t: nat, req: SessionRequest, amount: nat, sessionId: nat, intent: Option<nat>)
    requires Valid(s) && t in s.threads &&
        s.threads[t] == Committing(SessionTask(req, amount), GotSession(sessionId, intent))
    ensures Valid(Next(s, CommitCall(t, false)))
    ensures !ViolatesUnique(s.db.payments, NewPayment(req, amount, sessionId, intent))
  {
    assert PhaseValid(s, s.threads[t]);
    var task := SessionTask(req, amount);
    var s' := Next(s, CommitCall(t, false));
    var p := NewPayment(req, amount, sessionId, intent);
    assert !ViolatesUnique(s.db.payments, p);
    if req.pnr in s.db.bookings {
      CommitKeepsPhases(s, s', t, PaymentRef(|s.db.payments|));
    } else {
      MoveKeepsValid(s, t, Failing(task));
    }
  }

  lemma RefundCommitKeepsValid(s: State, t: nat, task: Task, answer: Answer)
    requires Valid(s) && t in s.threads && s.threads[t] == Committing(task, answer)
    requires task.RefundTask? && answer.GotRefund?
    ensures Valid(Commit(s, t, task, answer))
  {
    if task.index < |s.db.payments| {
      var s' := Commit(s, t, task, answer);
      assert PhaseValid(s, s.threads[t]);
      CommitKeepsPhases(s, s', t, PaymentRef(task.index));
    }
  }

  lemma BookingCommitKeepsValid(s: State, t: nat, task: Task, answer: Answer)
    requires Valid(s) && t in s.threads && s.threads[t] == Committing(task, answer)
    requires task.BookingTask? && answer.GotAirline?
    ensures Valid(Commit(s, t, task, answer))
  {
    assert PhaseValid(s, s.threads[t]);
    if task.newPnr in s.db.bookings {
      MoveKeepsValid(s, t, Failing(task));
    } else {
      CommitKeepsPhases(s, Commit(s, t, task, answer), t, BookingRef(task.newPnr));
    }
  }

  lemma CommitKeepsValid(s: State, t: nat, task: Task, answer: Answer)
    requires Valid(s) && t in s.threads && s.threads[t] == Committing(task, answer)
    ensures Valid(Commit(s, t, task, answer))
  {
    assert PhaseValid(s, s.threads[t]);
    match task
    case SessionTask(req, amount) => SessionCommitKeepsValid(s, t, req, amount, answer.sessionId, answer.intent);
    case RefundTask(_, _, _, _, _) => RefundCommitKeepsValid(s, t, task, answer);
    case BookingTask(_, _, _, _) => BookingCommitKeepsValid(s, t, task, answer);
  }

  lemma LetGoKeepsHeldOnce(s: State, s': State, t: nat, outcome: Outcome)
    requires HeldOnce(s) && s'.threads == s.threads[t := Done(outcome)]
    ensures HeldOnce(s')
  {
  }

  /** A thread lets its key go, and the store changes under that key only. */
  lemma LetGoKeepsExclusive(s: State, s': State, t: nat, outcome: Outcome, key: Key)
    requires Exclusive(s) && PhaseOf(s, t).Holds(key) && s'.threads == s.threads[t := Done(outcome)]
    requires forall k | k != key ::
        (k in s.entries <==> k in s'.entries) && (k in s.entries ==> s'.entries[k] == s.entries[k])
    ensures Exclusive(s')
  {
    LetGoKeepsHeldOnce(s, s', t, outcome);
    forall u, k | u in s'.threads && s'.threads[u].Holds(k)
      ensures k in s'.entries && s'.entries[k].InProgress?
    {
      assert u != t && s.threads[u].Holds(k);
      assert k != key;
    }
  }

  lemma CompleteKeepsValid(s: State, t: nat)
    requires Valid(s) && t in s.threads && s.threads[t].Completing?
    ensures Valid(Next(s, EndCall(t)))
  {
    assert PhaseValid(s, s.threads[t]) && s.threads[t].Holds(s.threads[t].task.Key());
    var s' := Next(s, EndCall(t));
    LetGoKeepsExclusive(s, s', t, s'.threads[t].outcome, s.threads[t].task.Key());
  }

  lemma FailKeepsValid(s: State, t: nat)
    requires Valid(s) && t in s.threads && s.threads[t].Failing?
    ensures Valid(Next(s, EndCall(t)))
  {
    assert PhaseValid(s, s.threads[t]) && s.threads[t].Holds(s.threads[t].task.Key());
    var s' := Next(s, EndCall(t));
    LetGoKeepsExclusive(s, s', t, s'.threads[t].outcome, s.threads[t].task.Key());
  }

  lemma CommitFailedKeepsValid(s: State, t: nat, task: Task, answer: Answer)
    requires Valid(s) && t in s.threads && s.threads[t] == Committing(task, answer)
    ensures Valid(CommitFailed(s, t, task))
  {
    assert PhaseValid(s, s.threads[t]) && s.threads[t].Holds(task.Key());
    if task.RefundTask? {
      LetGoKeepsExclusive(s, CommitFailed(s, t, task), t, Raised(DatabaseRejected), task.Key());
    } else {
      MoveKeepsValid(s, t, Failing(task));
    }
  }

  /** What a customer or a webhook leaves alone: everything that keys point to. */
  ghost predicate SameRecords(s: State, s': State) {
    && s'.entries == s.entries && s'.threads == s.threads
    && s'.effects == s.effects && s'.commits == s.commits && s'.seen == s.seen
    && s'.mock.byKey == s.mock.byKey && s'.mock.refunds == s.mock.refunds
    && |s'.mock.sessions| == |s.mock.sessions| && s'.db.bookings == s.db.bookings
    && |s'.db.payments| == |s.db.payments|
    && (forall i | 0 <= i < |s.db.payments| ::
          s'.db.payments[i].key == s.db.payments[i].key && s'.db.payments[i].sessionId == s.db.payments[i].sessionId)
  }

  lemma SameRecordsKeepLedger(s: State, s': State)
    requires LedgerValid(s) && SameRecords(s, s')
    ensures LedgerValid(s')
  {
    forall j | 0 <= j < |s'.mock.sessions|
      ensures HasKey(s'.mock, j)
    {
      assert HasKey(s.mock, j);
    }
  }

  lemma SameRecordsKeepPhase(s: State, s': State, phase: Phase)
    requires PhaseValid(s, phase) && SameRecords(s, s')
    ensures PhaseValid(s', phase)
  {
  }

  lemma SameRecordsKeepStore(s: State, s': State)
    requires StoreValid(s) && SameRecords(s, s')
    ensures StoreValid(s')
  {
  }

  lemma SameRecordsKeepRows(s: State, s': State)
    requires RowsRecorded(s) && SameRecords(s, s')
    ensures RowsRecorded(s')
  {
  }

  lemma OutsideKeepsRecords(s: State, step: Step)
    requires MockValid(s.mock) && IsOutside(step)
    ensures SameRecords(s, Next(s, step))
  {
  }

  lemma SameRecordsKeepValid(s: State, s': State)
    requires Valid(s) && SameRecords(s, s')
    ensures Valid(s')
  {
    SameRecordsKeepLedger(s, s');
    SameRecordsKeepStore(s, s');
    SameRecordsKeepRows(s, s');
    forall t | t in s'.threads
      ensures PhaseValid(s', s'.threads[t])
    {
      SameRecordsKeepPhase(s, s', s.threads[t]);
    }
  }

  lemma OutsideKeepsValid(s: State, step: Step)
    requires Valid(s) && IsOutside(step)
    ensures Valid(Next(s, step))
  {
    OutsideKeepsRecords(s, step);
    SameRecordsKeepValid(s, Next(s, step));
  }

  lemma NextKeepsValid(s: State, step: Step)
    requires Valid(s)
    ensures Valid(Next(s, step))
  {
    match step
    case BeginCall(t, task) =>
      if (PhaseOf(s, t).Idle? || PhaseOf(s, t).Done?) && Readable(s.db, task) { BeginKeepsValid(s, t, task); }
    case CallProvider(t) => if PhaseOf(s, t).Calling? { CalledKeepsValid(s, t, PhaseOf(s, t).task); }
    case CommitCall(t, storageFails) =>
      var phase := PhaseOf(s, t);
      if phase.Committing? && storageFails {
        CommitFailedKeepsValid(s, t, phase.task, phase.answer);
      } else if phase.Committing? {
        CommitKeepsValid(s, t, phase.task, phase.answer);
      }
    case EndCall(t) =>
      if PhaseOf(s, t).Completing? {
        CompleteKeepsValid(s, t);
      } else if PhaseOf(s, t).Failing? {
        FailKeepsValid(s, t);
      }
    case CustomerCompletes(_, _, _) => OutsideKeepsValid(s, step);
    case WebhookSettles(_, _, _) => OutsideKeepsValid(s, step);
  }

  function Run(s: State, steps: seq<Step>): (s': State)
    requires MockValid(s.mock)
    ensures MockValid(s'.mock)
    decreases |steps|
  {
    if steps == [] then s else Run(Next(s, steps[0]), steps[1..])
  }

  lemma {:induction false} RunKeepsValid(s: State, steps: seq<Step>)
    requires Valid(s)
    ensures Valid(Run(s, steps))
    decreases |steps|
  {
    if steps != [] {
      NextKeepsValid(s, steps[0]);
      RunKeepsValid(Next(s, steps[0]), steps[1..]);
    }
  }

  // ------------------------------------------------------------ what every interleaving guarantees

  /** At most one thread per key is between a `begin` that let it on and its `complete` or
      `fail`; while it is, every other call with the key is refused as in progress. */
  lemma MutualExclusion(steps: seq<Step>, t: nat, key: Key)
    requires PhaseOf(Run(START, steps), t).Holds(key)
    ensures
      var s := Run(START, steps);
      && (forall u | PhaseOf(s, u).Holds(key) :: u == t)
      && (forall u, task: Task | task.Key() == key && Readable(s.db, task) &&
          (PhaseOf(s, u).Idle? || PhaseOf(s, u).Done?) ::
            PhaseOf(Next(s, BeginCall(u, task)), u) == Done(Raised(RequestInProgress)))
  {
    RunKeepsValid(START, steps);
    var s := Run(START, steps);
    assert s.entries[key] == InProgress;
    forall u, task: Task | task.Key() == key && Readable(s.db, task) &&
                           (PhaseOf(s, u).Idle? || PhaseOf(s, u).Done?)
      ensures PhaseOf(Next(s, BeginCall(u, task)), u) == Done(Raised(RequestInProgress))
    {
      RefusedWhileInProgress(s, u, task);
    }
  }

  lemma RefusedWhileInProgress(s: State, t: nat, task: Task)
    requires MockValid(s.mock) && task.Key() in s.entries && s.entries[task.Key()].InProgress?
    requires Readable(s.db, task) && (PhaseOf(s, t).Idle? || PhaseOf(s, t).Done?)
    ensures PhaseOf(Next(s, BeginCall(t, task)), t) == Done(Raised(RequestInProgress))
  {
  }

  /** Under each key a provider does something new at most once and at most one transaction
      commits; so a key has at most one provider session and one payment row, and the row
      records that session. */
  lemma OncePerKey(steps: seq<Step>)
    ensures
      var s := Run(START, steps);
      && Distinct(s.effects) && Distinct(s.commits)
      && (forall i, j | 0 <= i < j < |s.db.payments| ::
            s.db.payments[i].key != s.db.payments[j].key && s.db.payments[i].sessionId != s.db.payments[j].sessionId)
      && (forall i | 0 <= i < |s.db.payments| ::
            var p := s.db.payments[i];
            p.key in s.mock.byKey && s.mock.byKey[p.key] == p.sessionId < |s.mock.sessions|)
      && (forall i | 0 <= i < |s.mock.sessions| :: HasOneKey(s.mock, i))
  {
    RunKeepsValid(START, steps);
    var s := Run(START, steps);
    forall i | 0 <= i < |s.mock.sessions|
      ensures HasOneKey(s.mock, i)
    {
      assert HasKey(s.mock, i);
      var key :| key in s.mock.byKey && s.mock.byKey[key] == i;
      assert IsOnlyKey(s.mock, key, i);
    }
  }

  ghost predicate IsOnlyKey(m: MockState, key: Key, i: nat) {
    key in m.byKey && m.byKey[key] == i && forall k | k in m.byKey && m.byKey[k] == i :: k == key
  }

  /** The session was created under exactly one key. */
  ghost predicate HasOneKey(m: MockState, i: nat) {
    exists key :: IsOnlyKey(m, key, i)
  }

  /** A payment row is never rejected as a duplicate: mutual exclusion already excludes it. */
  lemma NoDuplicateRow(steps: seq<Step>, t: nat)
    requires PhaseOf(Run(START, steps), t).Committing? && PhaseOf(Run(START, steps), t).task.SessionTask?
    ensures
      var s := Run(START, steps);
      var phase := PhaseOf(s, t);
      && phase.answer.GotSession?
      && !ViolatesUnique(s.db.payments,
                         NewPayment(phase.task.session, phase.task.amount, phase.answer.sessionId, phase.answer.intent))
  {
    RunKeepsValid(START, steps);
    var s := Run(START, steps);
    assert PhaseValid(s, s.threads[t]);
    var phase := s.threads[t];
    SessionCommitKeepsValid(s, t, phase.task.session, phase.task.amount, phase.answer.sessionId, phase.answer.intent);
  }

  lemma CompletedIsNotHeld(s: State, t: nat, key: Key)
    requires Exclusive(s) && key in s.entries && s.entries[key].Completed?
    ensures !PhaseOf(s, t).Holds(key)
  {
  }

  /** A step acts on the store and the providers under one key only. */
  lemma StepKeepsOtherKeys(s: State, step: Step, key: Key)
    requires MockValid(s.mock)
    requires if step.BeginCall? then key in s.entries else IsOutside(step) || !PhaseOf(s, step.thread).Holds(key)
    ensures key in s.entries ==> key in Next(s, step).entries && Next(s, step).entries[key] == s.entries[key]
    ensures key in Next(s, step).effects <==> key in s.effects
  {
  }

  /** After `complete` the key's result is final: over any continuation the entry is the same,
      no thread holds the key, no provider call does anything new under it, and a further
      call returns what was stored. */
  lemma {:induction false} CompletedIsFinal(s: State, steps: seq<Step>, key: Key)
    requires Valid(s) && key in s.entries && s.entries[key].Completed?
    ensures
      var s' := Run(s, steps);
      && key in s'.entries && s'.entries[key] == s.entries[key]
      && (key in s'.effects <==> key in s.effects)
      && (forall t :: !PhaseOf(s', t).Holds(key))
      && (forall t, task: Task | task.Key() == key && Readable(s'.db, task) &&
          (PhaseOf(s', t).Idle? || PhaseOf(s', t).Done?) ::
            PhaseOf(Next(s', BeginCall(t, task)), t) ==
            Done(
              if s.entries[key].result.PaymentRef? then GotPayment(s.entries[key].result.index) else GotBooking(false)))
    decreases |steps|
  {
    if steps == [] {
      forall t ensures !PhaseOf(s, t).Holds(key) {
        CompletedIsNotHeld(s, t, key);
      }
    } else {
      if !IsOutside(steps[0]) { CompletedIsNotHeld(s, steps[0].thread, key); }
      StepKeepsOtherKeys(s, steps[0], key);
      NextKeepsValid(s, steps[0]);
      CompletedIsFinal(Next(s, steps[0]), steps[1..], key);
    }
  }
}
