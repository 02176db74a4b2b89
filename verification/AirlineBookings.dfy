/** What the mock airline's operations make of a booking: its passengers, its flight, its contacts
    and the quote it came from. */
module AirlineBookings {
  import opened Wrappers
  import opened AirlineMoney
  import opened Airline

  // ------------------------------------------------------------ removing a passenger

  predicate HasId(p: Passenger, id: nat) {
    p.id == Some(id)
  }

  /** Who stays: everybody with another id, as often as before. */
  lemma {:induction false} OthersStay(passengers: seq<Passenger>, id: nat, p: Passenger)
    ensures multiset(Without(passengers, id))[p] == if HasId(p, id) then 0 else multiset(passengers)[p]
    ensures p in Without(passengers, id) <==> p in passengers && !HasId(p, id)
    decreases |passengers|
  {
    if passengers != [] {
      assert passengers == [passengers[0]] + passengers[1..];
      OthersStay(passengers[1..], id, p);
    }
  }

  /** And in the same order: removal works on every part of the list by itself. */
  lemma {:induction false} RemovalSplits(a: seq<Passenger>, b: seq<Passenger>, id: nat)
    ensures Without(a + b, id) == Without(a, id) + Without(b, id)
    decreases |a|
  {
    if a == [] {
      assert a + b == b;
    } else {
      assert (a + b)[1..] == a[1..] + b;
      RemovalSplits(a[1..], b, id);
    }
  }

  ghost predicate NobodyHas(passengers: seq<Passenger>, id: nat) {
    forall p | p in passengers :: !HasId(p, id)
  }

  ghost predicate EverybodyHas(passengers: seq<Passenger>, id: nat) {
    forall p | p in passengers :: HasId(p, id)
  }

  lemma {:induction false} HowManyStay(passengers: seq<Passenger>, id: nat)
    ensures |Without(passengers, id)| <= |passengers|
    ensures |Without(passengers, id)| == |passengers| <==> NobodyHas(passengers, id)
    ensures Without(passengers, id) == [] <==> EverybodyHas(passengers, id)
    decreases |passengers|
  {
    if passengers != [] {
      var first, rest := passengers[0], passengers[1..];
      assert passengers == [first] + rest;
      HowManyStay(rest, id);
      assert NobodyHas(passengers, id) <==> !HasId(first, id) && NobodyHas(rest, id);
      assert EverybodyHas(passengers, id) <==> HasId(first, id) && EverybodyHas(rest, id);
    }
  }

  /** The passengers with other ids, in order. */
  ghost predicate AreTheOthers(rest: seq<Passenger>, passengers: seq<Passenger>, id: nat) {
    && (forall p :: multiset(rest)[p] == if HasId(p, id) then 0 else multiset(passengers)[p])
    && exists kept: seq<nat> :: |kept| == |rest|
         && (forall i | 0 <= i < |kept| :: kept[i] < |passengers| && rest[i] == passengers[kept[i]])
         && (forall i, j | 0 <= i < j < |kept| :: kept[i] < kept[j])
  }

  lemma {:induction false} KeptInOrder(passengers: seq<Passenger>, id: nat) returns (kept: seq<nat>)
    ensures |kept| == |Without(passengers, id)|
    ensures forall i | 0 <= i < |kept| :: kept[i] < |passengers| && Without(passengers, id)[i] == passengers[kept[i]]
    ensures forall i, j | 0 <= i < j < |kept| :: kept[i] < kept[j]
    decreases |passengers|
  {
    if passengers == [] {
      kept := [];
    } else {
      var init, last := passengers[..|passengers| - 1], passengers[|passengers| - 1];
      assert passengers == init + [last];
      RemovalSplits(init, [last], id);
      assert [last][1..] == [];
      kept := KeptInOrder(init, id);
      if !HasId(last, id) { kept := kept + [|init|]; }
    }
  }

  lemma OthersAreTheOthers(passengers: seq<Passenger>, id: nat)
    ensures AreTheOthers(Without(passengers, id), passengers, id)
  {
    forall p ensures multiset(Without(passengers, id))[p] == if HasId(p, id) then 0 else multiset(passengers)[p] {
      OthersStay(passengers, id, p);
    }
    var kept := KeptInOrder(passengers, id);
  }

  /** The booking holds exactly the others, in order, at the one-shot price for that many, and no
      other booking changes. */
  ghost predicate Removed(s: State, ref: Ref, id: nat, schedule: Schedule, s': State, b': Booking)
    requires ref in s.bookings && schedule(s.bookings[ref].flight).Some?
  {
    var b := s.bookings[ref];
    && AreTheOthers(b'.passengers, b.passengers, id)
    && b'.total == Reprice(schedule(b.flight).value.price, |b'.passengers|)
    && b' == b.(passengers := b'.passengers, total := b'.total)
    && s' == s.(bookings := s.bookings[ref := b'])
  }

  /** Removing a passenger is refused exactly when nobody has the id, when nobody would be left, or
      when the flight is gone, and then changes nothing; otherwise it leaves the others. */
  lemma RemovalIsAnswered(s: State, ref: Ref, id: nat, schedule: Schedule, now: real)
    requires Valid(s) && ref in s.bookings
    ensures
      var b := s.bookings[ref];
      var (s', reply) := Next(s, RemovePassenger(ref, id), schedule, now);
      && (reply == Failed(PassengerNotFound) <==> NobodyHas(b.passengers, id))
      && (reply == Failed(PassengerValidationFailed) <==>
            !NobodyHas(b.passengers, id) && EverybodyHas(b.passengers, id))
      && (reply == Failed(FlightNotFound) <==>
            !NobodyHas(b.passengers, id) && !EverybodyHas(b.passengers, id) && schedule(b.flight).None?)
      && (reply.Failed? ==> s' == s)
      && (reply.Got? <==>
            !NobodyHas(b.passengers, id) && !EverybodyHas(b.passengers, id) && schedule(b.flight).Some?)
      && (reply.Got? ==> reply.ref == ref && Removed(s, ref, id, schedule, s', reply.booking))
  {
    var passengers := s.bookings[ref].passengers;
    HowManyStay(passengers, id);
    if Without(passengers, id) != [] && |Without(passengers, id)| < |passengers| {
      RemovalGoesThrough(s, ref, id, schedule, now);
    }
  }

  lemma RemovalGoesThrough(s: State, ref: Ref, id: nat, schedule: Schedule, now: real)
    requires Valid(s) && ref in s.bookings
    requires 0 < |Without(s.bookings[ref].passengers, id)| < |s.bookings[ref].passengers|
    ensures
      var (s', reply) := Next(s, RemovePassenger(ref, id), schedule, now);
      if schedule(s.bookings[ref].flight).None? then s' == s && reply == Failed(FlightNotFound)
      else reply.Got? && reply.ref == ref && Removed(s, ref, id, schedule, s', reply.booking)
  {
    OthersAreTheOthers(s.bookings[ref].passengers, id);
  }

  /** The booking holds one passenger more, at the end, under its own id or the new one, at the
      one-shot price for that many. */
  ghost predicate Added(s: State, ref: Ref, p: Passenger, newId: nat, schedule: Schedule, s': State, b': Booking)
    requires ref in s.bookings && schedule(s.bookings[ref].flight).Some?
  {
    var b := s.bookings[ref];
    && |b'.passengers| == |b.passengers| + 1 && b'.passengers[..|b.passengers|] == b.passengers
    && b'.passengers[|b.passengers|] == Passenger(Some(p.id.GetOr(newId)), p.name)
    && b'.total == Reprice(schedule(b.flight).value.price, |b'.passengers|)
    && b' == b.(passengers := b'.passengers, total := b'.total)
    && s' == s.(bookings := s.bookings[ref := b'])
  }

  lemma AdditionIsAnswered(s: State, ref: Ref, p: Passenger, newId: nat, schedule: Schedule, now: real)
    requires Valid(s)
    ensures
      var (s', reply) := Next(s, AddPassenger(ref, p, newId), schedule, now);
      && (reply == Failed(BookingNotFound) <==> ref !in s.bookings)
      && (reply == Failed(FlightNotFound) <==> ref in s.bookings && schedule(s.bookings[ref].flight).None?)
      && (reply.Got? <==> ref in s.bookings && schedule(s.bookings[ref].flight).Some?)
      && (reply.Got? ==> reply.ref == ref && Added(s, ref, p, newId, schedule, s', reply.booking))
      && (!reply.Got? ==> s' == s)
  {
  }

  // ------------------------------------------------------------ changing a booking

  predicate IsChangeable(s: State, ref: Ref, changes: Changes, schedule: Schedule) {
    && ref in s.bookings && !s.bookings[ref].status.Cancelled?
    && (changes.flight.Some? ==> schedule(changes.flight.value).Some?)
  }

  /** A booking moved to another flight departs when that flight does and is modified, at the
      one-shot price for its passengers, or for one if it has none; moved or not, it has the new
      contacts that were given and everything else as before. */
  predicate IsChangeOf(b: Booking, changes: Changes, schedule: Schedule, b': Booking) {
    && b'.passengers == b.passengers
    && b'.email == changes.email.GetOr(b.email) && b'.phone == changes.phone.GetOr(b.phone)
    && match changes.flight
       case None => b'.flight == b.flight && b'.departure == b.departure && b'.total == b.total && b'.status == b.status
       case Some(id) =>
         && schedule(id).Some? && b'.flight == id && b'.departure == schedule(id).value.departure
         && b'.status.Modified?
         && b'.total == Reprice(schedule(id).value.price, if b.passengers == [] then 1 else |b.passengers|)
  }

  /** Under a new key a change is carried out exactly on a live booking and, if it names one, to a
      flight that exists. */
  lemma ChangeIsAnswered(s: State, ref: Ref, changes: Changes, key: string, schedule: Schedule, now: real)
    requires Valid(s) && key !in s.seen
    ensures
      var (s', reply) := Next(s, Update(ref, changes, key), schedule, now);
      && (reply.Got? <==> IsChangeable(s, ref, changes, schedule))
      && (reply.Got? ==>
            && reply.ref == ref && IsChangeOf(s.bookings[ref], changes, schedule, reply.booking)
            && s' == State(s.quotes, s.bookings[ref := reply.booking], s.seen[key := ref]))
      && (!reply.Got? ==> s' == s)
      && (reply == Failed(BookingNotFound) <==> ref !in s.bookings)
      && (reply == Failed(BookingNotModifiable) <==> ref in s.bookings && s.bookings[ref].status.Cancelled?)
      && (reply == Failed(FlightNotFound) <==>
            ref in s.bookings && !s.bookings[ref].status.Cancelled? && !IsChangeable(s, ref, changes, schedule))
  {
  }

  // ------------------------------------------------------------ departures

  /** Every quote and every booking departs when its flight does. */
  ghost predicate OnSchedule(s: State, schedule: Schedule) {
    && (forall q | q in s.quotes ::
          schedule(s.quotes[q].flight).Some? && s.quotes[q].departure == schedule(s.quotes[q].flight).value.departure)
    && (forall ref | ref in s.bookings ::
          && schedule(s.bookings[ref].flight).Some?
          && s.bookings[ref].departure == schedule(s.bookings[ref].flight).value.departure)
  }

  lemma NextKeepsOnSchedule(s: State, step: Step, schedule: Schedule, now: real)
    requires Valid(s) && OnSchedule(s, schedule)
    ensures OnSchedule(Next(s, step, schedule, now).0, schedule)
  {
  }

  lemma {:induction false} RunKeepsOnSchedule(s: State, events: seq<Event>, schedule: Schedule)
    requires Valid(s) && OnSchedule(s, schedule)
    ensures OnSchedule(Run(s, events, schedule), schedule)
    decreases |events|
  {
    if events != [] {
      var s' := Next(s, events[0].step, schedule, events[0].now).0;
      NextKeepsOnSchedule(s, events[0].step, schedule, events[0].now);
      RunKeepsOnSchedule(s', events[1..], schedule);
    }
  }

  const START := State(map[], map[], map[])

  /** The day shares of a cancellation fee, by the whole days left to departure. */
  function SharePercent(left: real): nat {
    if left <= 1.0 then 90 else if left <= 2.0 then 50 else if left <= 7.0 then 25 else 10
  }

  const DAY: real := 86400.0

  /** In every run, whatever changes of flight came before, cancelling a live booking keeps the
      share of its total that goes with the time left to the departure of the flight it is on by
      then, to the nearest cent, and hands back the rest. */
  lemma FeeFollowsTheFlight(events: seq<Event>, schedule: Schedule, ref: Ref, key: string, now: real)
    requires
      var s := Run(START, events, schedule);
      ref in s.bookings && !s.bookings[ref].status.Cancelled?
    ensures
      var s := Run(START, events, schedule);
      var b, (s', reply) := s.bookings[ref], Next(s, Cancel(ref, key), schedule, now);
      && schedule(b.flight).Some? && reply.Cancellation? && !reply.alreadyCancelled
      && var left := (schedule(b.flight).value.departure - now) / DAY;
      && IsNearest(b.total * SharePercent(left), reply.fee) && reply.fee + reply.refundable == b.total
      && s'.bookings == s.bookings[ref := b.(status := Cancelled)]
      && s'.seen == if key in s.seen then s.seen else s.seen[key := ref]
  {
    RunKeepsOnSchedule(START, events, schedule);
    var s := Run(START, events, schedule);
    var b := s.bookings[ref];
    MoneyIsNearest(b.total * FeePercent(b.departure - now));
    CancellationConserves(b.total, b.departure - now);
    SharesAreTheSame(b.departure - now);
  }

  lemma SharesAreTheSame(seconds: real)
    ensures FeePercent(seconds) == SharePercent(seconds / DAY)
  {
  }

  /** A booking is cancelled once: later calls are told so, get nothing, and change nothing. */
  lemma CancelIsAnswered(s: State, ref: Ref, key: string, schedule: Schedule, now: real)
    requires Valid(s)
    ensures
      var (s', reply) := Next(s, Cancel(ref, key), schedule, now);
      && (reply == Failed(BookingNotFound) <==> ref !in s.bookings)
      && (reply.Cancellation? <==> ref in s.bookings)
      && (reply == Cancellation(0, 0, true) <==> ref in s.bookings && s.bookings[ref].status.Cancelled?)
      && (reply.Cancellation? && !reply.alreadyCancelled <==> s' != s)
  {
    if ref in s.bookings {
      assert s.bookings[ref := s.bookings[ref].(status := Cancelled)][ref].status.Cancelled?;
    }
  }

  // ------------------------------------------------------------ honouring a quote

  /** A quote is given exactly for a flight that exists. */
  lemma QuoteIsGivenExactlyWhen(s: State, asked: Step, schedule: Schedule, now: real)
    requires Valid(s) && asked.GetQuote?
    ensures
      var (s', reply) := Next(s, asked, schedule, now);
      && (reply.Quoted? <==> schedule(asked.flight).Some?)
      && (!reply.Quoted? ==> reply == Failed(FlightNotFound) && s' == s)
      && s'.bookings == s.bookings && s'.seen == s.seen
  {
  }

  /** Under a new key a booking is made exactly from a quote that was given and has not run out. */
  lemma CreationIsAnswered(s: State, booked: Step, schedule: Schedule, now: real)
    requires Valid(s) && booked.Create? && booked.key !in s.seen
    ensures
      var (s', reply) := Next(s, booked, schedule, now);
      && (reply.Got? <==> booked.quote in s.quotes && now <= s.quotes[booked.quote].expiresAt)
      && (!reply.Got? ==> reply == Failed(FareExpired) && s' == s)
  {
  }

  lemma {:induction false} QuoteStays(s: State, events: seq<Event>, schedule: Schedule, quote: nat)
    requires Valid(s) && RunsFresh(s, events, schedule) && quote in s.quotes
    ensures quote in Run(s, events, schedule).quotes && Run(s, events, schedule).quotes[quote] == s.quotes[quote]
    decreases |events|
  {
    if events != [] {
      QuoteStays(Next(s, events[0].step, schedule, events[0].now).0, events[1..], schedule, quote);
    }
  }

  /** A quote is honoured, whatever happens in between, exactly up to fifteen minutes after it was
      given: the new booking is confirmed, on the quoted flight and at the quoted total. */
  lemma QuoteIsHonouredExactlyWhen(s: State, asked: Step, given: real, events: seq<Event>, booked: Step, now: real,
                                   schedule: Schedule)
    requires Valid(s) && asked.GetQuote? && schedule(asked.flight).Some?
    requires RunsFresh(Next(s, asked, schedule, given).0, events, schedule)
    requires
      var t := Run(Next(s, asked, schedule, given).0, events, schedule);
      booked.Create? && booked.quote == asked.newQuote && booked.key !in t.seen
    ensures
      var (s1, quoted) := Next(s, asked, schedule, given);
      var t := Run(s1, events, schedule);
      var (t', reply) := Next(t, booked, schedule, now);
      && quoted == Quoted(Quote(schedule(asked.flight).value.price, asked.adults, asked.children, asked.infants))
      && (now <= given + 15.0 * 60.0 ==>
            var b := Booking(Confirmed, asked.flight, schedule(asked.flight).value.departure, booked.passengers,
                             booked.email, booked.phone, quoted.fare.total);
            && reply == Got(booked.newRef, b)
            && t' == State(t.quotes, t.bookings[booked.newRef := b], t.seen[booked.key := booked.newRef]))
      && (now > given + 15.0 * 60.0 ==> reply == Failed(FareExpired) && t' == t)
  {
    QuoteStays(Next(s, asked, schedule, given).0, events, schedule, asked.newQuote);
  }
}
