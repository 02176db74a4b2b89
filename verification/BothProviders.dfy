/** The services together with the airline: bookings are made, changed and cancelled at both,
    while payments go on. The airline's own record of a booking is part of the state. */
module BothProviders {
  import opened Wrappers
  import opened SessionStateMachine
  import opened Idempotency
  import opened PaymentTables
  import opened PaymentProvider
  import opened PaymentSteps
  import opened PaymentRuns
  import opened PaymentTheorems
  import opened PaymentCancellation
  import A = Airline
  import M = AirlineMoney

  /** `refs` is the provider reference stored with each booking. */
  datatype World = World(local: Local, airline: A.State, refs: map<Pnr, A.Ref>)

  datatype Move =
    | GetQuote(request: A.Step)
    | Book(pnr: Pnr, creation: A.Step)
    | Change(confirmed: bool, pnr: Pnr, changes: A.Changes, key: string)
    | Cancellation(cancel: CancelRequest, key: string, reply: RefundReply)
    | Money(step: Step)

  datatype Event = Event(move: Move, now: real)

  ghost predicate WellFormed(w: World) {
    A.Valid(w.airline) && ForeignKeys(w.local.db)
  }

  function RequestFor(move: Move): ModifyRequest
    requires move.Change?
  {
    ModifyRequest(move.confirmed, move.pnr, move.changes.flight.Some?,
                  move.changes.email.Some? || move.changes.phone.Some?)
  }

  /** The request gets past the checks of `modify_booking`. */
  predicate AsksForChange(w: World, move: Move)
    requires move.Change?
  {
    && move.pnr in w.refs && Modify(w.local, RequestFor(move), AirlineRaised).1 == Raised(ProviderFailed)
  }

  function ChangeAnswer(reply: A.Reply): AirlineAnswer<nat> {
    if reply.Got? then AirlineDone(reply.booking.total) else AirlineRaised
  }

  function CancelAnswer(reply: A.Reply): AirlineAnswer<int> {
    if reply.Cancellation? then AirlineDone(reply.refundable) else AirlineRaised
  }

  /** A request that its checks or the deduplication store answer does not reach the airline. */
  function After(w: World, event: Event, schedule: A.Schedule): (w': World)
    requires WellFormed(w)
    ensures WellFormed(w')
  {
    match event.move
    case GetQuote(request) =>
      if request.GetQuote? then w.(airline := A.Next(w.airline, request, schedule, event.now).0) else w
    case Book(pnr, creation) =>
      if !creation.Create? || !A.Fresh(w.airline, creation) || creation.key in w.airline.seen ||
          pnr in w.local.db.bookings then w
      else
        var (airline, reply) := A.Next(w.airline, creation, schedule, event.now);
        if reply.Got? then World(AddBooking(w.local, pnr, reply.booking.total), airline, w.refs[pnr := reply.ref])
        else w.(airline := airline)
    case Change(_, pnr, changes, key) =>
      if !AsksForChange(w, event.move) then w
      else
        var (airline, reply) := A.Next(w.airline, A.Update(w.refs[pnr], changes, key), schedule, event.now);
        World(Modify(w.local, RequestFor(event.move), ChangeAnswer(reply)).0, airline, w.refs)
    case Cancellation(req, key, reply) =>
      if req.pnr !in w.refs || PlanCancel(w.local, req, AirlineDone(0)).CancelStop? then w
      else
        var (airline, answer) := A.Next(w.airline, A.Cancel(w.refs[req.pnr], key), schedule, event.now);
        World(CancelStep(w.local, req, CancelAnswer(answer), reply).0, airline, w.refs)
    case Money(step) =>
      if step.StartSession? || step.Deliver? || step.StaffRefund? then w.(local := Next(w.local, step)) else w
  }

  function Run(w: World, events: seq<Event>, schedule: A.Schedule): (w': World)
    requires WellFormed(w)
    ensures WellFormed(w')
    decreases |events|
  {
    if events == [] then w else Run(After(w, events[0], schedule), events[1..], schedule)
  }

  lemma {:induction false} RunOneMore(w: World, events: seq<Event>, schedule: A.Schedule)
    requires WellFormed(w) && events != []
    ensures Run(w, events, schedule) == After(Run(w, events[..|events| - 1], schedule), events[|events| - 1], schedule)
    decreases |events|
  {
    var w' := After(w, events[0], schedule);
    if |events| == 1 {
      assert events[1..] == [];
    } else {
      assert events[..|events| - 1][1..] == events[1..][..|events| - 2];
      RunOneMore(w', events[1..], schedule);
    }
  }

  lemma RunThen(events: seq<Event>, event: Event, schedule: A.Schedule)
    ensures Run(START, events + [event], schedule) == After(Run(START, events, schedule), event, schedule)
  {
    assert (events + [event])[..|events|] == events;
    RunOneMore(START, events + [event], schedule);
  }

  // ------------------------------------------------------------ the two records of a booking

  /** Every total the airline has quoted or booked covers the booking fee. */
  ghost predicate Priced(a: A.State) {
    && (forall q | q in a.quotes :: a.quotes[q].total >= M.BOOKING_FEE)
    && (forall ref | ref in a.bookings :: a.bookings[ref].total >= M.BOOKING_FEE)
  }

  predicate Linked(w: World, pnr: Pnr)
    requires pnr in w.local.db.bookings
  {
    && pnr in w.refs && w.refs[pnr] in w.airline.bookings
    && (w.airline.bookings[w.refs[pnr]].status.Cancelled? <==> w.local.db.bookings[pnr].status.Cancelled?)
  }

  ghost predicate RefsValid(w: World) {
    && (forall pnr | pnr in w.refs :: pnr in w.local.db.bookings && w.refs[pnr] in w.airline.bookings)
    && (forall p, q | p in w.refs && q in w.refs && w.refs[p] == w.refs[q] :: p == q)
    && (forall pnr | pnr in w.local.db.bookings :: Linked(w, pnr))
  }

  ghost predicate Agreed(w: World) {
    Valid(w.local) && A.Valid(w.airline) && Priced(w.airline) && RefsValid(w)
  }

  lemma AirlineKeepsPriced(a: A.State, step: A.Step, schedule: A.Schedule, now: real)
    requires A.Valid(a) && Priced(a)
    ensures Priced(A.Next(a, step, schedule, now).0)
  {
  }

  /** Sessions, webhooks and refunds do not touch what both sides record. */
  ghost predicate SameRecords(db: Tables, db': Tables) {
    && db'.bookings.Keys == db.bookings.Keys
    && forall pnr | pnr in db.bookings ::
         db'.bookings[pnr].totalPrice == db.bookings[pnr].totalPrice &&
         db'.bookings[pnr].status == db.bookings[pnr].status
  }

  lemma MoneyKeepsRecords(l: Local, step: Step)
    requires ForeignKeys(l.db) && (step.StartSession? || step.Deliver? || step.StaffRefund?)
    ensures SameRecords(l.db, Next(l, step).db)
  {
    match step
    case StartSession(req, answer) => StartKeepsRecords(l, req, answer);
    case Deliver(event) => DeliverKeepsRecords(l, event);
    case StaffRefund(req, reply) => RefundKeepsRecords(l, req, reply);
  }

  lemma StartKeepsRecords(l: Local, req: SessionRequest, answer: SessionAnswer)
    ensures SameRecords(l.db, CreateSession(l, req, answer).0.db)
  {
  }

  lemma DeliverKeepsRecords(l: Local, event: WebhookEvent)
    requires ForeignKeys(l.db)
    ensures SameRecords(l.db, Webhook(l, event).0.db)
  {
  }

  lemma RefundKeepsRecords(l: Local, req: RefundRequest, reply: RefundReply)
    requires ForeignKeys(l.db)
    ensures SameRecords(l.db, RefundStep(l, req, reply).0.db)
  {
  }

  /** One booking changes at both sides, the others at neither. */
  lemma OneBookingChanges(w: World, w': World, pnr: Pnr)
    requires RefsValid(w) && pnr in w.local.db.bookings && w'.refs == w.refs
    requires w'.local.db.bookings.Keys == w.local.db.bookings.Keys
    requires w'.airline.bookings.Keys == w.airline.bookings.Keys && Linked(w', pnr)
    requires forall p | p in w.local.db.bookings && p != pnr :: w'.local.db.bookings[p] == w.local.db.bookings[p]
    requires forall ref | ref in w.airline.bookings && ref != w.refs[pnr] ::
        w'.airline.bookings[ref] == w.airline.bookings[ref]
    ensures RefsValid(w')
  {
    forall p | p in w'.local.db.bookings
      ensures Linked(w', p)
    {
      if p != pnr { assert Linked(w, p) && Linked(w, pnr); }
    }
  }

  lemma BookKeepsAgreed(w: World, event: Event, schedule: A.Schedule)
    requires Agreed(w) && event.move.Book?
    ensures Agreed(After(w, event, schedule))
  {
    var w', pnr, creation := After(w, event, schedule), event.move.pnr, event.move.creation;
    if w' != w {
      AirlineKeepsPriced(w.airline, creation, schedule, event.now);
      var reply := A.Next(w.airline, creation, schedule, event.now).1;
      if reply.Got? {
        AddBookingKeepsValid(w.local, pnr, reply.booking.total);
        forall p | p in w'.local.db.bookings
          ensures Linked(w', p)
        {
          if p != pnr { assert Linked(w, p); }
        }
      }
    }
  }

  lemma ChangeKeepsAgreed(w: World, event: Event, schedule: A.Schedule)
    requires Agreed(w) && event.move.Change?
    ensures Agreed(After(w, event, schedule))
  {
    var w', pnr := After(w, event, schedule), event.move.pnr;
    if AsksForChange(w, event.move) {
      var update := A.Update(w.refs[pnr], event.move.changes, event.move.key);
      var reply := A.Next(w.airline, update, schedule, event.now).1;
      assert Linked(w, pnr);
      AirlineKeepsPriced(w.airline, update, schedule, event.now);
      ModifyKeepsValid(w.local, RequestFor(event.move), ChangeAnswer(reply));
      UpdateChangesOne(w.airline, w.refs[pnr], event.move.changes, event.move.key, schedule, event.now);
      ModifyTakesTotal(w.local, RequestFor(event.move), ChangeAnswer(reply));
      OneBookingChanges(w, w', pnr);
    }
  }

  /** The airline's side of a change: at most the one booking, and not under a key already seen. */
  lemma UpdateChangesOne(a: A.State, ref: A.Ref, changes: A.Changes, key: string, schedule: A.Schedule, now: real)
    requires A.Valid(a) && ref in a.bookings && !a.bookings[ref].status.Cancelled?
    ensures
      var (a', reply) := A.Next(a, A.Update(ref, changes, key), schedule, now);
      && a'.bookings.Keys == a.bookings.Keys && !a'.bookings[ref].status.Cancelled?
      && (forall r | r in a.bookings && r != ref :: a'.bookings[r] == a.bookings[r])
      && (key in a.seen ==> a' == a && reply == A.Got(a.seen[key], a.bookings[a.seen[key]]))
      && (key !in a.seen ==>
          a'.bookings[ref].total == if reply.Got? then reply.booking.total else a.bookings[ref].total)
  {
  }

  /** The local side of a change that passed its checks. */
  lemma ModifyTakesTotal(l: Local, req: ModifyRequest, answer: AirlineAnswer<nat>)
    requires Modify(l, req, AirlineRaised).1 == Raised(ProviderFailed)
    ensures
      var db' := Modify(l, req, answer).0.db;
      && req.pnr in l.db.bookings && db'.bookings.Keys == l.db.bookings.Keys && !db'.bookings[req.pnr].status.Cancelled?
      && (forall p | p in l.db.bookings && p != req.pnr :: db'.bookings[p] == l.db.bookings[p])
      && db'.bookings[req.pnr].totalPrice ==
         if answer.AirlineDone? then answer.value else l.db.bookings[req.pnr].totalPrice
  {
  }

  lemma CancelsAtBoth(w: World, req: CancelRequest, key: string, now: real, schedule: A.Schedule)
    requires Agreed(w) && req.pnr in w.refs && !PlanCancel(w.local, req, AirlineDone(0)).CancelStop?
    ensures
      var (airline, answer) := A.Next(w.airline, A.Cancel(w.refs[req.pnr], key), schedule, now);
      && answer.Cancellation? && !answer.alreadyCancelled && answer.fee > 0 && answer.refundable >= 0
      && answer.fee + answer.refundable == w.airline.bookings[w.refs[req.pnr]].total
      && !PlanCancel(w.local, req, CancelAnswer(answer)).CancelStop?
  {
    assert Linked(w, req.pnr);
    var b := w.airline.bookings[w.refs[req.pnr]];
    M.CancellationConserves(b.total, b.departure - now);
    M.FeeIsPositive(b.total, b.departure - now);
  }

  lemma CancelStepKeepsRecords(l: Local, req: CancelRequest, airline: AirlineAnswer<int>, reply: RefundReply)
    requires ForeignKeys(l.db) && !PlanCancel(l, req, airline).CancelStop?
    ensures req.pnr in l.db.bookings &&
        SameRecords(MarkCancelled(l.db, req.pnr), CancelStep(l, req, airline, reply).0.db)
    ensures forall p | p in l.db.bookings && p != req.pnr ::
        CancelStep(l, req, airline, reply).0.db.bookings[p] == l.db.bookings[p]
  {
    CancelStepClosesOut(l, req, airline, reply);
    CloseOutKeepsRecords(Local(MarkCancelled(l.db, req.pnr), Begin(l.entries, req.Key()).0), req.pnr, airline.value,
                         reply);
  }

  lemma CloseOutKeepsRecords(l: Local, pnr: Pnr, refundable: int, reply: RefundReply)
    requires ForeignKeys(l.db) && pnr in l.db.bookings
    ensures SameRecords(l.db, CloseOutTables(l, pnr, refundable, reply))
    ensures forall p | p in l.db.bookings && p != pnr ::
        CloseOutTables(l, pnr, refundable, reply).bookings[p] == l.db.bookings[p]
  {
  }

  lemma CancelChangesOne(a: A.State, ref: A.Ref, key: string, schedule: A.Schedule, now: real)
    requires A.Valid(a) && ref in a.bookings
    ensures
      var a' := A.Next(a, A.Cancel(ref, key), schedule, now).0;
      && a'.bookings.Keys == a.bookings.Keys && a'.bookings[ref].status.Cancelled?
      && a'.bookings[ref].total == a.bookings[ref].total
      && (forall r | r in a.bookings && r != ref :: a'.bookings[r] == a.bookings[r])
  {
  }

  lemma CancelKeepsAgreed(w: World, event: Event, schedule: A.Schedule)
    requires Agreed(w) && event.move.Cancellation?
    ensures Agreed(After(w, event, schedule))
  {
    var w', req, reply := After(w, event, schedule), event.move.cancel, event.move.reply;
    if req.pnr in w.refs && !PlanCancel(w.local, req, AirlineDone(0)).CancelStop? {
      var request := A.Cancel(w.refs[req.pnr], event.move.key);
      var answer := A.Next(w.airline, request, schedule, event.now).1;
      CancelsAtBoth(w, req, event.move.key, event.now, schedule);
      AirlineKeepsPriced(w.airline, request, schedule, event.now);
      CancelChangesOne(w.airline, w.refs[req.pnr], event.move.key, schedule, event.now);
      CancelStepKeepsValid(w.local, req, CancelAnswer(answer), reply);
      CancelStepKeepsRecords(w.local, req, CancelAnswer(answer), reply);
      assert Linked(w, req.pnr);
      OneBookingChanges(w, w', req.pnr);
    }
  }

  lemma MoneyKeepsAgreed(w: World, step: Step)
    requires Agreed(w) && (step.StartSession? || step.Deliver? || step.StaffRefund?)
    ensures Agreed(w.(local := Next(w.local, step)))
  {
    NextKeepsValid(w.local, step);
    MoneyKeepsRecords(w.local, step);
    var w' := w.(local := Next(w.local, step));
    forall pnr | pnr in w'.local.db.bookings
      ensures Linked(w', pnr)
    {
      assert Linked(w, pnr);
    }
  }

  lemma QuoteKeepsAgreed(w: World, request: A.Step, schedule: A.Schedule, now: real)
    requires Agreed(w) && request.GetQuote?
    ensures Agreed(w.(airline := A.Next(w.airline, request, schedule, now).0))
  {
    AirlineKeepsPriced(w.airline, request, schedule, now);
    var w' := w.(airline := A.Next(w.airline, request, schedule, now).0);
    assert w'.airline.bookings == w.airline.bookings;
    forall pnr | pnr in w'.local.db.bookings
      ensures Linked(w', pnr)
    {
      assert Linked(w, pnr);
    }
  }

  lemma AfterKeepsAgreed(w: World, event: Event, schedule: A.Schedule)
    requires Agreed(w)
    ensures Agreed(After(w, event, schedule))
  {
    match event.move
    case GetQuote(request) => if request.GetQuote? { QuoteKeepsAgreed(w, request, schedule, event.now); }
    case Book(_, _) => BookKeepsAgreed(w, event, schedule);
    case Change(_, _, _, _) => ChangeKeepsAgreed(w, event, schedule);
    case Cancellation(_, _, _) => CancelKeepsAgreed(w, event, schedule);
    case Money(step) => if step.StartSession? || step.Deliver? || step.StaffRefund? { MoneyKeepsAgreed(w, step); }
  }

  const START := World(EMPTY, A.State(map[], map[], map[]), map[])

  lemma {:induction false} RunKeepsAgreed(w: World, events: seq<Event>, schedule: A.Schedule)
    requires Agreed(w)
    ensures Agreed(Run(w, events, schedule))
    decreases |events|
  {
    if events != [] {
      AfterKeepsAgreed(w, events[0], schedule);
      RunKeepsAgreed(After(w, events[0], schedule), events[1..], schedule);
    }
  }

  /** In every run of bookings, changes, cancellations and payments, a booking is cancelled at the
      airline exactly when it is cancelled in the local database. */
  lemma CancelledAtBoth(events: seq<Event>, schedule: A.Schedule, pnr: Pnr)
    requires pnr in Run(START, events, schedule).local.db.bookings
    ensures
      var w := Run(START, events, schedule);
      && pnr in w.refs && w.refs[pnr] in w.airline.bookings
      && (w.airline.bookings[w.refs[pnr]].status.Cancelled? <==> w.local.db.bookings[pnr].status.Cancelled?)
  {
    RunKeepsAgreed(START, events, schedule);
    assert Linked(Run(START, events, schedule), pnr);
  }

  // ------------------------------------------------------------ when the two prices agree

  predicate PricesAgree(w: World, pnr: Pnr) {
    && pnr in w.local.db.bookings && pnr in w.refs && w.refs[pnr] in w.airline.bookings
    && w.airline.bookings[w.refs[pnr]].total == w.local.db.bookings[pnr].totalPrice
  }

  /** The event is a change of this booking that the airline answers with a booking. */
  ghost predicate TakesPrice(w: World, event: Event, schedule: A.Schedule, pnr: Pnr)
    requires WellFormed(w)
  {
    && event.move.Change? && event.move.pnr == pnr && AsksForChange(w, event.move)
    && A.Next(w.airline, A.Update(w.refs[pnr], event.move.changes, event.move.key), schedule, event.now).1.Got?
  }

  /** The airline has seen the key of a change for no other booking, or for one at the same price. */
  predicate IsOwnPrice(w: World, event: Event)
    requires A.Valid(w.airline) && event.move.Change? && event.move.pnr in w.refs
  {
    var ref, key := w.refs[event.move.pnr], event.move.key;
    && ref in w.airline.bookings
    && (key in w.airline.seen && w.airline.seen[key] != ref ==>
          w.airline.bookings[w.airline.seen[key]].total == w.airline.bookings[ref].total)
  }

  lemma ChangeOfPrice(w: World, event: Event, schedule: A.Schedule, pnr: Pnr)
    requires Agreed(w) && pnr in w.local.db.bookings && event.move.Change? && event.move.pnr == pnr
    ensures
      PricesAgree(After(w, event, schedule), pnr) <==>
      if TakesPrice(w, event, schedule, pnr) then IsOwnPrice(w, event) else PricesAgree(w, pnr)
  {
    assert Linked(w, pnr);
    if AsksForChange(w, event.move) {
      var update := A.Update(w.refs[pnr], event.move.changes, event.move.key);
      UpdateChangesOne(w.airline, w.refs[pnr], event.move.changes, event.move.key, schedule, event.now);
      ModifyTakesTotal(w.local, RequestFor(event.move), ChangeAnswer(A.Next(w.airline, update, schedule, event.now).1));
    }
  }

  lemma ChangeOfAnother(w: World, event: Event, schedule: A.Schedule, pnr: Pnr)
    requires Agreed(w) && pnr in w.local.db.bookings && event.move.Change? && event.move.pnr != pnr
    ensures PricesAgree(After(w, event, schedule), pnr) <==> PricesAgree(w, pnr)
  {
    assert Linked(w, pnr);
    if AsksForChange(w, event.move) {
      var other := event.move.pnr;
      assert Linked(w, other);
      var update := A.Update(w.refs[other], event.move.changes, event.move.key);
      UpdateChangesOne(w.airline, w.refs[other], event.move.changes, event.move.key, schedule, event.now);
      ModifyTakesTotal(w.local, RequestFor(event.move), ChangeAnswer(A.Next(w.airline, update, schedule, event.now).1));
    }
  }

  lemma CancellationKeepsPrices(w: World, event: Event, schedule: A.Schedule, pnr: Pnr)
    requires Agreed(w) && pnr in w.local.db.bookings && event.move.Cancellation?
    ensures PricesAgree(After(w, event, schedule), pnr) <==> PricesAgree(w, pnr)
  {
    var req, reply := event.move.cancel, event.move.reply;
    assert Linked(w, pnr);
    if req.pnr in w.refs && !PlanCancel(w.local, req, AirlineDone(0)).CancelStop? {
      assert Linked(w, req.pnr);
      var answer := A.Next(w.airline, A.Cancel(w.refs[req.pnr], event.move.key), schedule, event.now).1;
      CancelsAtBoth(w, req, event.move.key, event.now, schedule);
      CancelChangesOne(w.airline, w.refs[req.pnr], event.move.key, schedule, event.now);
      CancelStepKeepsRecords(w.local, req, CancelAnswer(answer), reply);
    }
  }

  lemma OthersKeepPrices(w: World, event: Event, schedule: A.Schedule, pnr: Pnr)
    requires Agreed(w) && pnr in w.local.db.bookings && !event.move.Change? && !event.move.Cancellation?
    ensures PricesAgree(After(w, event, schedule), pnr) <==> PricesAgree(w, pnr)
  {
    assert Linked(w, pnr);
    if event.move.Money? {
      var step := event.move.step;
      if step.StartSession? || step.Deliver? || step.StaffRefund? { MoneyKeepsRecords(w.local, step); }
    }
  }

  lemma PricesAfter(w: World, event: Event, schedule: A.Schedule, pnr: Pnr)
    requires Agreed(w) && pnr in w.local.db.bookings
    ensures
      PricesAgree(After(w, event, schedule), pnr) <==>
      if TakesPrice(w, event, schedule, pnr) then IsOwnPrice(w, event) else PricesAgree(w, pnr)
  {
    if event.move.Change? && event.move.pnr == pnr {
      ChangeOfPrice(w, event, schedule, pnr);
    } else if event.move.Change? {
      ChangeOfAnother(w, event, schedule, pnr);
    } else if event.move.Cancellation? {
      CancellationKeepsPrices(w, event, schedule, pnr);
    } else {
      OthersKeepPrices(w, event, schedule, pnr);
    }
  }

  lemma NewBookingAgrees(w: World, event: Event, schedule: A.Schedule, pnr: Pnr)
    requires Agreed(w) && pnr !in w.local.db.bookings
    ensures !TakesPrice(w, event, schedule, pnr)
    ensures pnr in After(w, event, schedule).local.db.bookings ==> PricesAgree(After(w, event, schedule), pnr)
  {
    match event.move
    case Cancellation(req, key, reply) =>
      if req.pnr in w.refs && !PlanCancel(w.local, req, AirlineDone(0)).CancelStop? {
        var answer := A.Next(w.airline, A.Cancel(w.refs[req.pnr], key), schedule, event.now).1;
        CancelsAtBoth(w, req, key, event.now, schedule);
        CancelStepKeepsRecords(w.local, req, CancelAnswer(answer), reply);
      }
    case Money(step) =>
      if step.StartSession? || step.Deliver? || step.StaffRefund? { MoneyKeepsRecords(w.local, step); }
    case Change(_, other, changes, key) =>
      if AsksForChange(w, event.move) {
        var update := A.Update(w.refs[other], changes, key);
        ModifyTakesTotal(w.local, RequestFor(event.move),
                         ChangeAnswer(A.Next(w.airline, update, schedule, event.now).1));
      }
    case _ =>
  }

  /** The last change that the airline answered for a booking, if any, was at its own price. */
  ghost predicate LastPriceIsOwn(events: seq<Event>, schedule: A.Schedule, pnr: Pnr)
    decreases |events|
  {
    events == [] ||
    var init, last := events[..|events| - 1], events[|events| - 1];
    var w := Run(START, init, schedule);
    if TakesPrice(w, last, schedule, pnr) then IsOwnPrice(w, last) else LastPriceIsOwn(init, schedule, pnr)
  }

  lemma {:induction false} PricesFollowTheLastChange(events: seq<Event>, schedule: A.Schedule, pnr: Pnr)
    ensures
      if pnr in Run(START, events, schedule).local.db.bookings
      then PricesAgree(Run(START, events, schedule), pnr) <==> LastPriceIsOwn(events, schedule, pnr)
      else LastPriceIsOwn(events, schedule, pnr)
    decreases |events|
  {
    if events != [] {
      var init, last := events[..|events| - 1], events[|events| - 1];
      var w := Run(START, init, schedule);
      PricesFollowTheLastChange(init, schedule, pnr);
      RunKeepsAgreed(START, init, schedule);
      RunOneMore(START, events, schedule);
      if pnr in w.local.db.bookings {
        PricesAfter(w, last, schedule, pnr);
        BookingsStay(w, last, schedule, pnr);
      } else {
        NewBookingAgrees(w, last, schedule, pnr);
      }
    }
  }

  lemma BookingsStay(w: World, event: Event, schedule: A.Schedule, pnr: Pnr)
    requires Agreed(w) && pnr in w.local.db.bookings
    ensures pnr in After(w, event, schedule).local.db.bookings
  {
    if event.move.Cancellation? { CancellationKeepsBookings(w, event, schedule); }
    if event.move.Money? {
      var step := event.move.step;
      if step.StartSession? || step.Deliver? || step.StaffRefund? { MoneyKeepsRecords(w.local, step); }
    }
  }

  lemma CancellationKeepsBookings(w: World, event: Event, schedule: A.Schedule)
    requires Agreed(w) && event.move.Cancellation?
    ensures After(w, event, schedule).local.db.bookings.Keys == w.local.db.bookings.Keys
  {
    var req := event.move.cancel;
    if req.pnr in w.refs && !PlanCancel(w.local, req, AirlineDone(0)).CancelStop? {
      var answer := A.Next(w.airline, A.Cancel(w.refs[req.pnr], event.move.key), schedule, event.now).1;
      CancelsAtBoth(w, req, event.move.key, event.now, schedule);
      CancelStepKeepsRecords(w.local, req, CancelAnswer(answer), event.move.reply);
    }
  }

  /** In every run, the airline and the local database agree on a booking's price exactly when the
      last change the airline answered for it was sent under a key that the airline had not seen
      for another booking, or had seen for one at the same price. */
  lemma PricesAgreeExactlyWhen(events: seq<Event>, schedule: A.Schedule, pnr: Pnr)
    requires pnr in Run(START, events, schedule).local.db.bookings
    ensures PricesAgree(Run(START, events, schedule), pnr) <==> LastPriceIsOwn(events, schedule, pnr)
  {
    PricesFollowTheLastChange(events, schedule, pnr);
  }

  // ------------------------------------------------------------ they do come apart

  const SCHEDULE: A.Schedule := (id: A.FlightId) => Some(A.Flight(if id == "a" then 10000 else 20000, 0.0))

  function QuoteFor(flight: A.FlightId, quote: nat): Event {
    Event(GetQuote(A.GetQuote(flight, 1, 0, 0, quote)), 0.0)
  }

  function BookFrom(pnr: Pnr, quote: nat, key: string): Event {
    Event(Book(pnr, A.Create(quote, [A.Passenger(None, pnr)], "", "", key, quote)), 0.0)
  }

  function ChangeMail(pnr: Pnr): Event {
    Event(Change(true, pnr, A.Changes(None, Some("new"), None), "k"), 0.0)
  }

  function Booked(pnr: Pnr, flight: A.FlightId, mail: string, total: nat): A.Booking {
    A.Booking(A.Confirmed, flight, 0.0, [A.Passenger(None, pnr)], mail, "", total)
  }

  const QUOTES: map<nat, A.QuoteEntry> :=
    map[0 := A.QuoteEntry("a", 0.0, 13300, 900.0), 1 := A.QuoteEntry("b", 0.0, 24100, 900.0)]

  const ONE_BOOKED := World(
    Local(Tables(map["P" := Booking(Confirmed, Unpaid, 13300)], []), map[]),
    A.State(map[0 := QUOTES[0]], map[0 := Booked("P", "a", "", 13300)], map["b1" := 0]), map["P" := 0])

  lemma OneIsBooked()
    ensures Run(START, [QuoteFor("a", 0), BookFrom("P", 0, "b1")], SCHEDULE) == ONE_BOOKED
  {
    var quoted := START.(airline := A.State(map[0 := QUOTES[0]], map[], map[]));
    assert Run(START, [], SCHEDULE) == START;
    RunThen([], QuoteFor("a", 0), SCHEDULE);
    assert [] + [QuoteFor("a", 0)] == [QuoteFor("a", 0)];
    assert After(START, QuoteFor("a", 0), SCHEDULE) == quoted;
    RunThen([QuoteFor("a", 0)], BookFrom("P", 0, "b1"), SCHEDULE);
    assert After(quoted, BookFrom("P", 0, "b1"), SCHEDULE) == ONE_BOOKED;
  }

  const TWO_BOOKED := World(
    Local(Tables(map["P" := Booking(Confirmed, Unpaid, 13300), "Q" := Booking(Confirmed, Unpaid, 24100)], []), map[]),
    A.State(QUOTES, map[0 := Booked("P", "a", "", 13300), 1 := Booked("Q", "b", "", 24100)], map["b1" := 0, "b2" := 1]),
    map["P" := 0, "Q" := 1])

  lemma SecondIsBooked()
    ensures After(After(ONE_BOOKED, QuoteFor("b", 1), SCHEDULE), BookFrom("Q", 1, "b2"), SCHEDULE) == TWO_BOOKED
  {
    SecondIsQuoted();
    assert After(ONE_BOOKED_TWO_QUOTED, BookFrom("Q", 1, "b2"), SCHEDULE) == TWO_BOOKED;
  }

  const ONE_BOOKED_TWO_QUOTED := ONE_BOOKED.(airline := ONE_BOOKED.airline.(quotes := QUOTES))

  lemma SecondIsQuoted()
    ensures After(ONE_BOOKED, QuoteFor("b", 1), SCHEDULE) == ONE_BOOKED_TWO_QUOTED
  {
  }

  const CHANGED := TWO_BOOKED.(airline := TWO_BOOKED.airline.(
    bookings := map[0 := Booked("P", "a", "new", 13300), 1 := Booked("Q", "b", "", 24100)],
    seen := map["b1" := 0, "b2" := 1, "k" := 0]))

  lemma FirstIsChanged()
    ensures After(TWO_BOOKED, ChangeMail("P"), SCHEDULE) == CHANGED
  {
  }

  const MIXED_UP := CHANGED.(local := Local(
    Tables(map["P" := Booking(Confirmed, Unpaid, 13300), "Q" := Booking(Confirmed, Unpaid, 13300)], []), map[]))

  lemma SecondTakesTheFirstPrice()
    ensures After(CHANGED, ChangeMail("Q"), SCHEDULE) == MIXED_UP
  {
  }

  const ONE_BOOKING: seq<Event> := [QuoteFor("a", 0), BookFrom("P", 0, "b1")]
  const TWO_BOOKINGS: seq<Event> := ONE_BOOKING + [QuoteFor("b", 1)] + [BookFrom("Q", 1, "b2")]

  /** A run in which the prices come apart: two bookings at different prices are changed under one
      key, and the local database takes the second at the first one's price. */
  lemma OneKeyForTwoBookings()
    ensures
      var w := Run(START, TWO_BOOKINGS + [ChangeMail("P")] + [ChangeMail("Q")], SCHEDULE);
      w == MIXED_UP && !PricesAgree(w, "Q")
  {
    OneIsBooked();
    RunThen(ONE_BOOKING, QuoteFor("b", 1), SCHEDULE);
    RunThen(ONE_BOOKING + [QuoteFor("b", 1)], BookFrom("Q", 1, "b2"), SCHEDULE);
    SecondIsBooked();
    RunThen(TWO_BOOKINGS, ChangeMail("P"), SCHEDULE);
    FirstIsChanged();
    RunThen(TWO_BOOKINGS + [ChangeMail("P")], ChangeMail("Q"), SCHEDULE);
    SecondTakesTheFirstPrice();
  }

  // ------------------------------------------------------------ what a cancellation costs

  lemma OutOfPocket(left: nat, price: nat, fee: int, refundable: int)
    requires fee > 0 && refundable >= 0 && fee + refundable == price
    ensures left - Capped(refundable, left) == fee <==> left == price
  {
  }

  lemma CancellationGoesThrough(w: World, req: CancelRequest, key: string, schedule: A.Schedule, now: real,
                                reply: RefundReply)
    requires Agreed(w) && CancelsPaidBooking(w.local, req)
    ensures req.pnr in w.refs && !PlanCancel(w.local, req, AirlineDone(0)).CancelStop?
    ensures
      var (airline, answer) := A.Next(w.airline, A.Cancel(w.refs[req.pnr], key), schedule, now);
      After(w, Event(Cancellation(req, key, reply), now), schedule) ==
      World(CancelStep(w.local, req, CancelAnswer(answer), reply).0, airline, w.refs)
  {
    assert Linked(w, req.pnr);
  }

  lemma CancellationCosts(w: World, req: CancelRequest, key: string, schedule: A.Schedule, now: real, refundId: Key)
    requires Agreed(w) && CancelsPaidBooking(w.local, req)
    ensures req.pnr in w.refs && w.refs[req.pnr] in w.airline.bookings &&
        CostsWhatIsLeft(w, req, key, schedule, now, refundId)
  {
    CancellationGoesThrough(w, req, key, schedule, now, RefundReplied(refundId, RefundSucceeded));
    CancelsAtBoth(w, req, key, now, schedule);
    var answer := A.Next(w.airline, A.Cancel(w.refs[req.pnr], key), schedule, now).1;
    CancellationCredits(w.local, req, answer.refundable, refundId);
    assert RefundBounded(w.local.db.payments[Latest(w.local.db.payments, req.pnr).value]);
    OutOfPocket(LeftOfLatest(w.local.db, req.pnr), w.airline.bookings[w.refs[req.pnr]].total, answer.fee,
                answer.refundable);
  }

  /** Both sides cancel; the airline splits its total into fee and refund; the payment is credited
      that refund, capped at what was left of it. What the customer has then paid on balance is
      what was left less the refund, and no less than nothing: exactly the fee if and only if what
      was left is the airline's total. Of a payment of that total, earlier refunds come off the fee. */
  ghost predicate CostsWhatIsLeft(w: World, req: CancelRequest, key: string, schedule: A.Schedule, now: real,
                                  refundId: Key)
    requires Agreed(w) && CancelsPaidBooking(w.local, req) && req.pnr in w.refs && w.refs[req.pnr] in w.airline.bookings
  {
    var (airline, answer) := A.Next(w.airline, A.Cancel(w.refs[req.pnr], key), schedule, now);
    var w' := After(w, Event(Cancellation(req, key, RefundReplied(refundId, RefundSucceeded)), now), schedule);
    var i, total := Latest(w.local.db.payments, req.pnr).value, w.airline.bookings[w.refs[req.pnr]].total;
    var p, left := w.local.db.payments[i], LeftOfLatest(w.local.db, req.pnr);
    && answer.Cancellation? && answer.fee > 0 && answer.refundable >= 0 && answer.fee + answer.refundable == total
    && w'.airline == airline && ClosedOut(w.local.db, w'.local.db, req.pnr, Capped(answer.refundable, left))
    && var paid := p.amount - RefundedOf(w'.local.db.payments[i]);
    && paid == (if left <= answer.refundable then 0 else left - answer.refundable)
    && (paid == answer.fee <==> left == total)
    && (p.amount == total ==> paid == if RefundedOf(p) <= answer.fee then answer.fee - RefundedOf(p) else 0)
  }

  /** Across both providers, in every run and after any partial refunds: what cancelling a paid
      booking costs the customer. */
  lemma CustomerLosesExactlyTheFee(events: seq<Event>, schedule: A.Schedule, req: CancelRequest, key: string,
                                   now: real, refundId: Key)
    requires CancelsPaidBooking(Run(START, events, schedule).local, req)
    ensures
      var w := Run(START, events, schedule);
      && Agreed(w) && req.pnr in w.refs && w.refs[req.pnr] in w.airline.bookings
      && CostsWhatIsLeft(w, req, key, schedule, now, refundId)
  {
    RunKeepsAgreed(START, events, schedule);
    CancellationCosts(Run(START, events, schedule), req, key, schedule, now, refundId);
  }
}
