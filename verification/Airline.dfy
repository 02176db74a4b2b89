/** The mock airline's quotes, bookings and idempotency map (app/providers/airline/mock.py).
    A flight's price and departure are fixed by its id; references, quote ids and passenger
    ids that the provider draws at random are fresh values passed in. */
module Airline {
  import opened Wrappers
  import opened AirlineMoney

  type FlightId = string
  type Ref = nat

  datatype Flight = Flight(price: nat, departure: real)

  /** `get_flight`: None when the id names no flight. */
  type Schedule = FlightId -> Option<Flight>

  datatype BookingStatus = Confirmed | Modified | Cancelled

  datatype Passenger = Passenger(id: Option<nat>, name: string)

  datatype Booking = Booking(
    status: BookingStatus,
    flight: FlightId,
    departure: real,
    passengers: seq<Passenger>,
    email: string,
    phone: string,
    total: nat)

  datatype QuoteEntry = QuoteEntry(flight: FlightId, departure: real, total: nat, expiresAt: real)

  datatype State = State(quotes: map<nat, QuoteEntry>, bookings: map<Ref, Booking>, seen: map<string, Ref>)

  datatype Error =
    | FlightNotFound
    | FareExpired
    | BookingNotFound
    | BookingNotModifiable
    | PassengerNotFound
    | PassengerValidationFailed

  datatype Reply =
    | Quoted(fare: Fare)
    | Got(ref: Ref, booking: Booking)
    | Cancellation(refundable: int, fee: int, alreadyCancelled: bool)
    | Failed(error: Error)

  datatype Changes = Changes(flight: Option<FlightId>, email: Option<string>, phone: Option<string>)

  const QUOTE_VALIDITY: real := 900.0

  datatype Step =
    | GetQuote(flight: FlightId, adults: nat, children: nat, infants: nat, newQuote: nat)
    | Create(quote: nat, passengers: seq<Passenger>, email: string, phone: string, key: string, newRef: Ref)
    | Update(ref: Ref, changes: Changes, key: string)
    | Cancel(ref: Ref, key: string)
    | AddPassenger(ref: Ref, passenger: Passenger, newId: nat)
    | RemovePassenger(ref: Ref, id: nat)

  /** Values the provider draws at random are new to it. */
  predicate Fresh(s: State, step: Step) {
    match step
    case GetQuote(_, _, _, _, newQuote) => newQuote !in s.quotes
    case Create(_, _, _, _, _, newRef) => newRef !in s.bookings
    case _ => true
  }

  ghost predicate Valid(s: State) {
    forall key | key in s.seen :: s.seen[key] in s.bookings
  }

  function Put(s: State, ref: Ref, b: Booking): State {
    s.(bookings := s.bookings[ref := b])
  }

  function Changed(b: Booking, changes: Changes, flight: Option<Flight>): Booking
    requires changes.flight.Some? ==> flight.Some?
  {
    var count := if |b.passengers| == 0 then 1 else |b.passengers|;
    var moved := if changes.flight.None? then b
                 else b.(flight := changes.flight.value, departure := flight.value.departure,
                         total := Reprice(flight.value.price, count), status := Modified);
    moved.(email := changes.email.GetOr(b.email), phone := changes.phone.GetOr(b.phone))
  }

  function Without(passengers: seq<Passenger>, id: nat): seq<Passenger> {
    if passengers == [] then []
    else (if passengers[0].id == Some(id) then [] else [passengers[0]]) + Without(passengers[1..], id)
  }

  function Next(s: State, step: Step, schedule: Schedule, now: real): (r: (State, Reply))
    requires Valid(s)
    ensures Valid(r.0)
  {
    match step
    case GetQuote(id, adults, children, infants, newQuote) =>
      (match schedule(id)
       case None => (s, Failed(FlightNotFound))
       case Some(flight) =>
         var fare := Quote(flight.price, adults, children, infants);
         (s.(quotes := s.quotes[newQuote := QuoteEntry(id, flight.departure, fare.total, now + QUOTE_VALIDITY)]),
          Quoted(fare)))
    case Create(quote, passengers, email, phone, key, newRef) =>
      if key in s.seen then (s, Got(s.seen[key], s.bookings[s.seen[key]]))
      else if quote !in s.quotes || now > s.quotes[quote].expiresAt then (s, Failed(FareExpired))
      else
        var q := s.quotes[quote];
        var b := Booking(Confirmed, q.flight, q.departure, passengers, email, phone, q.total);
        (Put(s, newRef, b).(seen := s.seen[key := newRef]), Got(newRef, b))
    case Update(ref, changes, key) =>
      if key in s.seen then (s, Got(s.seen[key], s.bookings[s.seen[key]]))
      else if ref !in s.bookings then (s, Failed(BookingNotFound))
      else if s.bookings[ref].status.Cancelled? then (s, Failed(BookingNotModifiable))
      else if changes.flight.Some? && schedule(changes.flight.value).None? then (s, Failed(FlightNotFound))
      else
        var b := Changed(s.bookings[ref], changes,
                         if changes.flight.Some? then schedule(changes.flight.value) else None);
        (Put(s, ref, b).(seen := s.seen[key := ref]), Got(ref, b))
    case Cancel(ref, key) =>
      if ref !in s.bookings then (s, Failed(BookingNotFound))
      else
        var b := s.bookings[ref];
        if b.status.Cancelled? then (s, Cancellation(0, 0, true))
        else
          var left := b.departure - now;
          var seen := if key in s.seen then s.seen else s.seen[key := ref];
          (Put(s, ref, b.(status := Cancelled)).(seen := seen),
           Cancellation(Refundable(b.total, left), CancellationFee(b.total, left), false))
    case AddPassenger(ref, passenger, newId) =>
      if ref !in s.bookings then (s, Failed(BookingNotFound))
      else
        var b := s.bookings[ref];
        var p := if passenger.id.None? then passenger.(id := Some(newId)) else passenger;
        (match schedule(b.flight)
         case None => (s, Failed(FlightNotFound))
         case Some(flight) =>
           var b' := b.(passengers := b.passengers + [p], total := Reprice(flight.price, |b.passengers| + 1));
           (Put(s, ref, b'), Got(ref, b')))
    case RemovePassenger(ref, id) =>
      if ref !in s.bookings then (s, Failed(BookingNotFound))
      else
        var b := s.bookings[ref];
        var rest := Without(b.passengers, id);
        if |rest| == |b.passengers| then (s, Failed(PassengerNotFound))
        else if rest == [] then (s, Failed(PassengerValidationFailed))
        else
          (match schedule(b.flight)
           case None => (s, Failed(FlightNotFound))
           case Some(flight) =>
             var b' := b.(passengers := rest, total := Reprice(flight.price, |rest|));
             (Put(s, ref, b'), Got(ref, b')))
  }

  class MockAirlineProvider {
    var quotes: map<nat, QuoteEntry>
    var bookings: map<Ref, Booking>
    var seen: map<string, Ref>
    const schedule: Schedule

    function Contents(): State
      reads this
    {
      State(quotes, bookings, seen)
    }

    constructor (schedule: Schedule)
      ensures Contents() == State(map[], map[], map[]) && this.schedule == schedule
    {
      quotes, bookings, seen := map[], map[], map[];
      this.schedule := schedule;
    }

    method GetFareQuote(id: FlightId, adults: nat, children: nat, infants: nat, newQuote: nat, now: real)
        returns (r: Reply)
      requires Valid(Contents())
      modifies this
      ensures Valid(Contents())
      ensures (Contents(), r) == Next(old(Contents()), GetQuote(id, adults, children, infants, newQuote), schedule, now)
    {
      var flight := schedule(id);
      if flight.None? {
        return Failed(FlightNotFound);
      }
      var base := Money(flight.value.price * (100 * adults + 75 * children + 10 * infants));
      var taxes := Money(base * TAX_PERCENT);
      var total := Money(100 * (base + taxes + BOOKING_FEE));
      quotes := quotes[newQuote := QuoteEntry(id, flight.value.departure, total, now + QUOTE_VALIDITY)];
      return Quoted(Fare(base, taxes, BOOKING_FEE, total));
    }

    method CreateBooking(quote: nat, passengers: seq<Passenger>, email: string, phone: string, key: string,
                         newRef: Ref, now: real)
      returns (r: Reply)
      requires Valid(Contents()) && newRef !in bookings
      modifies this
      ensures Valid(Contents())
      ensures (Contents(), r) ==
          Next(old(Contents()), Create(quote, passengers, email, phone, key, newRef), schedule, now)
    {
      if key in seen {
        return Got(seen[key], bookings[seen[key]]);
      }
      if quote !in quotes {
        return Failed(FareExpired);
      }
      var q := quotes[quote];
      if now > q.expiresAt {
        return Failed(FareExpired);
      }
      var b := Booking(Confirmed, q.flight, q.departure, passengers, email, phone, q.total);
      bookings := bookings[newRef := b];
      seen := seen[key := newRef];
      return Got(newRef, b);
    }

    method UpdateBooking(ref: Ref, changes: Changes, key: string, now: real) returns (r: Reply)
      requires Valid(Contents())
      modifies this
      ensures Valid(Contents())
      ensures (Contents(), r) == Next(old(Contents()), Update(ref, changes, key), schedule, now)
    {
      if key in seen {
        return Got(seen[key], bookings[seen[key]]);
      }
      if ref !in bookings {
        return Failed(BookingNotFound);
      }
      var b := bookings[ref];
      if b.status.Cancelled? {
        return Failed(BookingNotModifiable);
      }
      if changes.flight.Some? {
        var flight := schedule(changes.flight.value);
        if flight.None? {
          return Failed(FlightNotFound);
        }
        var count := if |b.passengers| == 0 then 1 else |b.passengers|;
        b := b.(flight := changes.flight.value, departure := flight.value.departure,
                total := Reprice(flight.value.price, count), status := Modified);
      }
      if changes.email.Some? {
        b := b.(email := changes.email.value);
      }
      if changes.phone.Some? {
        b := b.(phone := changes.phone.value);
      }
      bookings := bookings[ref := b];
      seen := seen[key := ref];
      return Got(ref, b);
    }

    method CancelBooking(ref: Ref, key: string, now: real) returns (r: Reply)
      requires Valid(Contents())
      modifies this
      ensures Valid(Contents())
      ensures (Contents(), r) == Next(old(Contents()), Cancel(ref, key), schedule, now)
    {
      if ref !in bookings {
        return Failed(BookingNotFound);
      }
      var b := bookings[ref];
      if b.status.Cancelled? {
        return Cancellation(0, 0, true);
      }
      var fee := Money(b.total * FeePercent(b.departure - now));
      var refundable := Money(100 * (b.total - fee));
      bookings := bookings[ref := b.(status := Cancelled)];
      if key !in seen {
        seen := seen[key := ref];
      }
      return Cancellation(refundable, fee, false);
    }

    method AddPassengerTo(ref: Ref, passenger: Passenger, newId: nat, now: real) returns (r: Reply)
      requires Valid(Contents())
      modifies this
      ensures Valid(Contents())
      ensures (Contents(), r) == Next(old(Contents()), AddPassenger(ref, passenger, newId), schedule, now)
    {
      if ref !in bookings {
        return Failed(BookingNotFound);
      }
      var b := bookings[ref];
      var p := passenger;
      if p.id.None? {
        p := p.(id := Some(newId));
      }
      var flight := schedule(b.flight);
      if flight.None? {
        return Failed(FlightNotFound);
      }
      var passengers := b.passengers + [p];
      b := b.(passengers := passengers, total := Reprice(flight.value.price, |passengers|));
      bookings := bookings[ref := b];
      return Got(ref, b);
    }

    method RemovePassengerFrom(ref: Ref, id: nat, now: real) returns (r: Reply)
      requires Valid(Contents())
      modifies this
      ensures Valid(Contents())
      ensures (Contents(), r) == Next(old(Contents()), RemovePassenger(ref, id), schedule, now)
    {
      if ref !in bookings {
        return Failed(BookingNotFound);
      }
      var b := bookings[ref];
      var passengers := Without(b.passengers, id);
      if |passengers| == |b.passengers| {
        return Failed(PassengerNotFound);
      }
      if passengers == [] {
        return Failed(PassengerValidationFailed);
      }
      var flight := schedule(b.flight);
      if flight.None? {
        return Failed(FlightNotFound);
      }
      b := b.(passengers := passengers, total := Reprice(flight.value.price, |passengers|));
      bookings := bookings[ref := b];
      return Got(ref, b);
    }
  }

  // ------------------------------------------------------------ runs

  datatype Event = Event(step: Step, now: real)

  /** A run in which every drawn value is new when it is drawn. */
  ghost predicate RunsFresh(s: State, events: seq<Event>, schedule: Schedule)
    requires Valid(s)
    decreases |events|
  {
    events != [] ==>
      Fresh(s, events[0].step) && RunsFresh(Next(s, events[0].step, schedule, events[0].now).0, events[1..], schedule)
  }

  function Run(s: State, events: seq<Event>, schedule: Schedule): (s': State)
    requires Valid(s)
    ensures Valid(s')
    decreases |events|
  {
    if events == [] then s else Run(Next(s, events[0].step, schedule, events[0].now).0, events[1..], schedule)
  }

  /** What the cancellations of one booking hand back over a run. */
  function HandedBack(s: State, events: seq<Event>, schedule: Schedule, ref: Ref): int
    requires Valid(s)
    decreases |events|
  {
    if events == [] then 0
    else
      var (s', reply) := Next(s, events[0].step, schedule, events[0].now);
      (if events[0].step.Cancel? && events[0].step.ref == ref && reply.Cancellation? then reply.refundable else 0)
      + HandedBack(s', events[1..], schedule, ref)
  }

  /** A cancelled booking stays cancelled, nothing more is handed back for it, and every key
      the provider has seen names a booking it still has. */
  lemma {:induction false} CancelledIsFinal(s: State, events: seq<Event>, schedule: Schedule, ref: Ref)
    requires Valid(s) && RunsFresh(s, events, schedule)
    requires ref in s.bookings && s.bookings[ref].status.Cancelled?
    ensures
      var s' := Run(s, events, schedule);
      && ref in s'.bookings && s'.bookings[ref].status.Cancelled?
      && HandedBack(s, events, schedule, ref) == 0
      && forall key | key in s'.seen :: s'.seen[key] in s'.bookings
    decreases |events|
  {
    if events != [] {
      CancelledIsFinal(Next(s, events[0].step, schedule, events[0].now).0, events[1..], schedule, ref);
    }
  }

  /** The first cancellation splits the booking's total into fee and refund; whatever follows,
      that refund is all that is ever handed back. */
  lemma FirstCancelIsAllThatIsHandedBack(s: State, ref: Ref, key: string, now: real, rest: seq<Event>,
                                         schedule: Schedule)
    requires Valid(s) && ref in s.bookings && !s.bookings[ref].status.Cancelled?
    requires RunsFresh(Next(s, Cancel(ref, key), schedule, now).0, rest, schedule)
    ensures
      var reply := Next(s, Cancel(ref, key), schedule, now).1;
      && reply.Cancellation? && !reply.alreadyCancelled
      && reply.fee >= 0 && reply.refundable >= 0 && reply.fee + reply.refundable == s.bookings[ref].total
      && HandedBack(s, [Event(Cancel(ref, key), now)] + rest, schedule, ref) == reply.refundable
  {
    var b := s.bookings[ref];
    CancellationConserves(b.total, b.departure - now);
    var events := [Event(Cancel(ref, key), now)] + rest;
    assert events[1..] == rest;
    CancelledIsFinal(Next(s, Cancel(ref, key), schedule, now).0, rest, schedule, ref);
  }

  /** A key, once seen, names its booking for ever. */
  lemma {:induction false} SeenStays(s: State, events: seq<Event>, schedule: Schedule, key: string)
    requires Valid(s) && key in s.seen
    ensures key in Run(s, events, schedule).seen && Run(s, events, schedule).seen[key] == s.seen[key]
    decreases |events|
  {
    if events != [] { SeenStays(Next(s, events[0].step, schedule, events[0].now).0, events[1..], schedule, key); }
  }

  /** Creations and changes that carry a key. */
  predicate Keyed(step: Step, key: string) {
    (step.Create? || step.Update?) && step.key == key
  }

  /** A creation or change that was answered, sent again under its key after any operations,
      changes nothing and returns the same booking, as it is by then. */
  lemma RetriesAreReplayed(s: State, first: Step, key: string, events: seq<Event>, again: Step, schedule: Schedule,
                           now: real, later: real)
    requires Valid(s) && Keyed(first, key) && Keyed(again, key) && Next(s, first, schedule, now).1.Got?
    ensures
      var (s1, reply) := Next(s, first, schedule, now);
      var t := Run(s1, events, schedule);
      reply.ref in t.bookings && Next(t, again, schedule, later) == (t, Got(reply.ref, t.bookings[reply.ref]))
  {
    SeenStays(Next(s, first, schedule, now).0, events, schedule, key);
  }

  // ------------------------------------------------------------ adding and removing a passenger

  lemma {:induction false} WithoutAppend(passengers: seq<Passenger>, p: Passenger, id: nat)
    requires p.id == Some(id) && forall q | q in passengers :: q.id != Some(id)
    ensures Without(passengers + [p], id) == passengers
    decreases |passengers|
  {
    if passengers == [] {
      assert ([p])[1..] == [];
    } else {
      assert (passengers + [p])[1..] == passengers[1..] + [p];
      WithoutAppend(passengers[1..], p, id);
    }
  }

  /** Adding a passenger under a new id and removing it again gives back every booking exactly
      as it was when the booking's total is the one-shot price of its passengers; otherwise
      the total, and nothing else, becomes that price. */
  lemma AddThenRemove(s: State, ref: Ref, p: Passenger, newId: nat, schedule: Schedule, now: real, later: real)
    requires Valid(s) && ref in s.bookings && s.bookings[ref].passengers != [] && schedule(s.bookings[ref].flight).Some?
    requires p.id.None? && forall q | q in s.bookings[ref].passengers :: q.id != Some(newId)
    ensures
      var b := s.bookings[ref];
      var price := Reprice(schedule(b.flight).value.price, |b.passengers|);
      var s1 := Next(s, AddPassenger(ref, p, newId), schedule, now).0;
      var (s2, reply) := Next(s1, RemovePassenger(ref, newId), schedule, later);
      && reply == Got(ref, b.(total := price))
      && s2 == s.(bookings := s.bookings[ref := b.(total := price)])
      && (s2 == s <==> b.total == price)
  {
    var b := s.bookings[ref];
    WithoutAppend(b.passengers, p.(id := Some(newId)), newId);
    assert s.bookings[ref := b] == s.bookings;
  }

  /** For a booking just made from a quote for as many passengers as it carries, the round trip
      gives back the quoted total exactly when the quote's discounts round away: always for
      adults only. */
  lemma QuotedBookingSurvivesAddThenRemove(s: State, flight: FlightId, adults: nat, children: nat, infants: nat,
                                           booked: Step, p: Passenger, newId: nat, schedule: Schedule, now: real)
    requires Valid(s) && schedule(flight).Some? && booked.Create? && Fresh(s, booked) && booked.key !in s.seen
    requires |booked.passengers| == adults + children + infants > 0
    requires p.id.None? && forall q | q in booked.passengers :: q.id != Some(newId)
    ensures
      var s1 := Next(s, GetQuote(flight, adults, children, infants, booked.quote), schedule, now).0;
      var s2 := Next(s1, booked, schedule, now).0;
      var s3 := Next(s2, AddPassenger(booked.newRef, p, newId), schedule, now).0;
      var s4 := Next(s3, RemovePassenger(booked.newRef, newId), schedule, now).0;
      s4 == s2 <==> schedule(flight).value.price * (25 * children + 90 * infants) <= 50
  {
    var s1 := Next(s, GetQuote(flight, adults, children, infants, booked.quote), schedule, now).0;
    var s2 := Next(s1, booked, schedule, now).0;
    AddThenRemove(s2, booked.newRef, p, newId, schedule, now, now);
    QuoteIsRepriceExactlyWhen(schedule(flight).value.price, adults, children, infants);
  }
}
