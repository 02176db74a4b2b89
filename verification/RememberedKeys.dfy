/** Which calls are carried out, which keys the deduplication store therefore knows after a run,
    and what a call that raises leaves behind. */
module RememberedKeys {
  import opened Wrappers
  import opened SessionStateMachine
  import opened Idempotency
  import opened PaymentTables
  import opened PaymentProvider
  import opened PaymentSteps
  import opened PaymentRuns
  import opened PaymentTheorems
  import opened PaymentRetries

  // ------------------------------------------------------------ when a refund is sent

  /** A paid booking whose payment still covers the request. */
  predicate OpenToRefund(db: Tables, req: RefundRequest) {
    && req.confirmed && req.pnr in db.bookings && db.bookings[req.pnr].payment.Paid?
    && StillRefundable(db, req)
    && db.payments[Latest(db.payments, req.pnr).value].intent.Some?
  }

  /** In any valid state a staff refund reaches the provider exactly for a paid booking whose
      payment covers it, under a key the store has not seen; otherwise it changes nothing. */
  lemma RefundIsSentExactlyWhen(l: Local, req: RefundRequest)
    requires Valid(l)
    ensures PlanRefund(l, req).RefundCall? <==> OpenToRefund(l.db, req) && req.Key() !in l.entries
    ensures PlanRefund(l, req).RefundStop? ==> PlanRefund(l, req).local == l
    ensures PlanRefund(l, req).RefundCall? ==>
      var i := Latest(l.db.payments, req.pnr).value;
      && PlanRefund(l, req).index == i && PlanRefund(l, req).intent == l.db.payments[i].intent.value
      && PlanRefund(l, req).amount == req.amount.GetOr(LeftOf(l.db.payments[i]))
  {
    if req.Key() in l.entries { assert EntryValid(l.db.payments, req.Key(), l.entries[req.Key()]); }
    if req.pnr in l.db.bookings { BookingFollowsLatest(l.db, req.pnr); }
  }

  // ------------------------------------------------------------ when a step carries its call out

  /** The airline cancels a booking that is not cancelled, under a key not used before. */
  predicate CarriesOutCancel(l: Local, req: CancelRequest, airline: AirlineAnswer<int>) {
    && req.confirmed && req.pnr in l.db.bookings && !l.db.bookings[req.pnr].status.Cancelled?
    && req.Key() !in l.entries && airline.AirlineDone?
  }

  /** The step does, under this key, what the key stands for: a session's row is committed, a
      refund is made and not rejected, a booking is cancelled, an event is delivered. */
  predicate CarriesOut(l: Local, step: Step, key: Key) {
    match step
    case StartSession(req, answer) =>
      && key == req.Key() && OpenToSession(l.db, req) && req.Key() !in l.entries
      && answer.SessionCreated? && forall p | p in l.db.payments :: p.sessionId != answer.sessionId
    case StaffRefund(req, reply) =>
      && key == req.Key() && OpenToRefund(l.db, req) && req.Key() !in l.entries
      && reply.RefundReplied? && !Rejects(reply)
    case CancelBooking(req, airline, _) => key == req.Key() && CarriesOutCancel(l, req, airline)
    case Deliver(event) => key == EventKey(event.id) && key !in l.entries
    case _ => false
  }

  /** What is remembered of it. */
  function ResultOf(l: Local, step: Step): StoredRef {
    match step
    case StartSession(_, _) => PaymentRef(|l.db.payments|)
    case StaffRefund(req, _) => PaymentRef(Latest(l.db.payments, req.pnr).GetOr(0))
    case CancelBooking(req, _, _) => BookingRef(req.pnr)
    case _ => EventOutcome
  }

  /** The store after a step: the result of what the step carried out, and nothing else is new. */
  ghost predicate StoreFollows(l: Local, step: Step, l': Local) {
    forall key ::
      && (key in l'.entries <==> key in l.entries || CarriesOut(l, step, key))
      && (key in l.entries ==> l'.entries[key] == l.entries[key])
      && (CarriesOut(l, step, key) ==> l'.entries[key] == Completed(ResultOf(l, step)))
  }

  lemma StartFollows(l: Local, req: SessionRequest, answer: SessionAnswer)
    requires Valid(l)
    ensures StoreFollows(l, StartSession(req, answer), CreateSession(l, req, answer).0)
  {
    SessionIsSentExactlyWhen(l, req);
    if PlanCreate(l, req).CreateCall? {
      SentSessionIsNew(l, req);
      if answer.SessionCreated? { FreshUnlessSessionTaken(l, req, answer); }
    }
  }

  /** Under a new key only the session id can be taken. */
  lemma FreshUnlessSessionTaken(l: Local, req: SessionRequest, answer: SessionAnswer)
    requires RowsStored(l) && req.Key() !in l.entries && answer.SessionCreated?
    ensures forall amount ::
              ViolatesUnique(l.db.payments, NewPayment(req, amount, answer.sessionId, answer.intent)) <==>
              exists p :: p in l.db.payments && p.sessionId == answer.sessionId
  {
    forall i | 0 <= i < |l.db.payments|
      ensures l.db.payments[i].key != req.Key()
    {
    }
  }

  lemma RefundFollows(l: Local, req: RefundRequest, reply: RefundReply)
    requires Valid(l)
    ensures StoreFollows(l, StaffRefund(req, reply), RefundStep(l, req, reply).0)
  {
    RefundIsSentExactlyWhen(l, req);
    if PlanRefund(l, req).RefundCall? {
      RefundIsAdmissible(l, req);
      SentRefundIsStored(l, req, reply);
    }
  }

  /** A refund that is sent is stored unless it is refused or rejected. */
  lemma SentRefundIsStored(l: Local, req: RefundRequest, reply: RefundReply)
    requires ForeignKeys(l.db) && EntriesValid(l) && PlanRefund(l, req).RefundCall?
    ensures
      RefundStep(l, req, reply).0.entries ==
      if reply.RefundRefused? || Rejects(reply) then l.entries
      else l.entries[req.Key() := Completed(PaymentRef(PlanRefund(l, req).index))]
  {
    SentRefundIsNew(l, req);
    assert l.entries[req.Key() := InProgress] - {req.Key()} == l.entries;
  }

  lemma CancelFollows(l: Local, req: CancelRequest, airline: AirlineAnswer<int>, reply: RefundReply)
    requires Valid(l)
    ensures StoreFollows(l, CancelBooking(req, airline, reply), CancelStep(l, req, airline, reply).0)
  {
    CancelIsCarriedOutExactlyWhen(l, req, airline);
    if CarriesOutCancel(l, req, airline) { CancelStepClosesOut(l, req, airline, reply); }
  }

  /** A cancellation that is not carried out changes nothing. */
  lemma CancelIsCarriedOutExactlyWhen(l: Local, req: CancelRequest, airline: AirlineAnswer<int>)
    requires EntriesValid(l)
    ensures PlanCancel(l, req, airline).CancelStop? <==> !CarriesOutCancel(l, req, airline)
    ensures PlanCancel(l, req, airline).CancelStop? ==> PlanCancel(l, req, airline).local == l
  {
    if req.Key() in l.entries {
      assert EntryValid(l.db.payments, req.Key(), l.entries[req.Key()]);
    } else {
      assert l.entries[req.Key() := InProgress] - {req.Key()} == l.entries;
    }
  }

  lemma NextFollows(l: Local, step: Step)
    requires Valid(l)
    ensures StoreFollows(l, step, Next(l, step))
  {
    match step
    case StartSession(req, answer) => StartFollows(l, req, answer);
    case StaffRefund(req, reply) => RefundFollows(l, req, reply);
    case CancelBooking(req, airline, reply) => CancelFollows(l, req, airline, reply);
    case ModifyBooking(req, change) => ModifyMovesNoMoney(l, req, change);
    case _ =>
  }

  // ------------------------------------------------------------ what the store knows

  predicate CarriedOutAt(steps: seq<Step>, k: nat, key: Key)
    requires k < |steps|
  {
    CarriesOut(Run(EMPTY, steps[..k]), steps[k], key)
  }

  /** After every run the store knows a key exactly when some step carried its call out under it:
      refusals, rejected refunds and failed calls are forgotten. */
  lemma {:induction false} KnownExactlyWhen(steps: seq<Step>, key: Key)
    ensures key in Run(EMPTY, steps).entries <==> CarriedOut(steps, key)
    decreases |steps|
  {
    if steps != [] {
      var init := steps[..|steps| - 1];
      KnownExactlyWhen(init, key);
      ReachedIsValid(init);
      RunOneMore(EMPTY, steps);
      NextFollows(Run(EMPTY, init), steps[|steps| - 1]);
      CarriedOutOneMore(steps, key);
    }
  }

  ghost predicate CarriedOut(steps: seq<Step>, key: Key) {
    exists k | 0 <= k < |steps| :: CarriedOutAt(steps, k, key)
  }

  lemma CarriedOutOneMore(steps: seq<Step>, key: Key)
    requires steps != []
    ensures
      var init, last := steps[..|steps| - 1], steps[|steps| - 1];
      CarriedOut(steps, key) <==> CarriedOut(init, key) || CarriesOut(Run(EMPTY, init), last, key)
  {
    var init := steps[..|steps| - 1];
    assert forall k | 0 <= k < |init| :: init[..k] == steps[..k];
    if CarriesOut(Run(EMPTY, init), steps[|steps| - 1], key) { assert CarriedOutAt(steps, |steps| - 1, key); }
    if k :| 0 <= k < |init| && CarriedOutAt(init, k, key) { assert CarriedOutAt(steps, k, key); }
    if k :| 0 <= k < |steps| && CarriedOutAt(steps, k, key) {
      if k < |init| { assert CarriedOutAt(init, k, key); }
    }
  }

  /** What it knows under the key is that step's result, for ever. */
  lemma KnownResult(steps: seq<Step>, k: nat, key: Key)
    requires k < |steps| && CarriedOutAt(steps, k, key)
    ensures key in Run(EMPTY, steps).entries
    ensures Run(EMPTY, steps).entries[key] == Completed(ResultOf(Run(EMPTY, steps[..k]), steps[k]))
  {
    ReachedIsValid(steps[..k]);
    RunThrough(steps, k);
    ResultStays(Run(EMPTY, steps[..k]), steps[k], steps[k + 1..], key);
  }

  lemma RunThrough(steps: seq<Step>, k: nat)
    requires k < |steps|
    ensures Run(EMPTY, steps) == Run(Next(Run(EMPTY, steps[..k]), steps[k]), steps[k + 1..])
  {
    assert steps == steps[..k] + steps[k..];
    RunAppends(EMPTY, steps[..k], steps[k..]);
    assert steps[k..][1..] == steps[k + 1..];
  }

  lemma ResultStays(l: Local, step: Step, after: seq<Step>, key: Key)
    requires Valid(l) && CarriesOut(l, step, key)
    ensures key in Run(Next(l, step), after).entries
    ensures Run(Next(l, step), after).entries[key] == Completed(ResultOf(l, step))
  {
    NextFollows(l, step);
    NextKeepsValid(l, step);
    RunKeepsEntries(Next(l, step), after);
  }

  // ------------------------------------------------------------ calls that raise

  function OutcomeOf(l: Local, step: Step): Outcome
    requires ForeignKeys(l.db)
  {
    match step
    case StartSession(req, answer) => CreateSession(l, req, answer).1
    case StaffRefund(req, reply) => RefundStep(l, req, reply).1
    case CancelBooking(req, airline, reply) => CancelStep(l, req, airline, reply).1
    case Deliver(event) => Webhook(l, event).1
    case ModifyBooking(req, change) => Modify(l, req, change).1
    case NewBooking(_, _) => GotBooking(false)
  }

  lemma RaisedStartChangesNothing(l: Local, req: SessionRequest, answer: SessionAnswer)
    requires Valid(l) && CreateSession(l, req, answer).1.Raised?
    ensures CreateSession(l, req, answer).0 == l
  {
    SessionIsSentExactlyWhen(l, req);
    if PlanCreate(l, req).CreateCall? {
      SentSessionIsNew(l, req);
      assert l.entries[req.Key() := InProgress] - {req.Key()} == l.entries;
    }
  }

  /** A refund is sent and comes back FAILED or CANCELED. */
  predicate IsRejected(l: Local, step: Step) {
    step.StaffRefund? && OpenToRefund(l.db, step.refund) && step.refund.Key() !in l.entries && Rejects(step.reply)
  }

  lemma RaisedRefundChangesNothing(l: Local, req: RefundRequest, reply: RefundReply)
    requires Valid(l) && RefundStep(l, req, reply).1.Raised?
    ensures RefundStep(l, req, reply).0.entries == l.entries
    ensures RefundStep(l, req, reply).0 == l <==> !IsRejected(l, StaffRefund(req, reply))
  {
    RefundIsSentExactlyWhen(l, req);
    RefundCredits(l, req, reply, Latest(l.db.payments, req.pnr).GetOr(0));
    if PlanRefund(l, req).RefundCall? {
      SentRefundIsStored(l, req, reply);
      if reply.RefundRefused? { RefusedRefundKeepsTables(l, req, reply); }
    }
  }

  lemma RefusedRefundKeepsTables(l: Local, req: RefundRequest, reply: RefundReply)
    requires ForeignKeys(l.db) && reply.RefundRefused?
    ensures RefundStep(l, req, reply).0.db == l.db
  {
  }

  lemma RaisedCancelChangesNothing(l: Local, req: CancelRequest, airline: AirlineAnswer<int>, reply: RefundReply)
    requires Valid(l) && CancelStep(l, req, airline, reply).1.Raised?
    ensures CancelStep(l, req, airline, reply).0 == l
  {
    CancelIsCarriedOutExactlyWhen(l, req, airline);
  }

  /** A call that raises leaves tables and store as they were, in every reached state and for
      every operation, except exactly when the call is a refund that the provider rejects. */
  lemma RaisedChangesNothing(before: seq<Step>, step: Step)
    requires OutcomeOf(Run(EMPTY, before), step).Raised?
    ensures
      var l := Run(EMPTY, before);
      && Next(l, step).entries == l.entries
      && (Next(l, step) == l <==> !IsRejected(l, step))
  {
    ReachedIsValid(before);
    var l := Run(EMPTY, before);
    match step
    case StartSession(req, answer) => RaisedStartChangesNothing(l, req, answer);
    case StaffRefund(req, reply) => RaisedRefundChangesNothing(l, req, reply);
    case CancelBooking(req, airline, reply) => RaisedCancelChangesNothing(l, req, airline, reply);
    case _ =>
  }
}
