/** Resolving spoken dates on the proleptic Gregorian calendar (app/core/dates.py). */
module Calendar {
  import opened Wrappers

  datatype Date = Date(year: nat, month: nat, day: nat)

  const MAX_YEAR: nat := 9999

  predicate IsLeap(year: nat) {
    year % 4 == 0 && (year % 100 != 0 || year % 400 == 0)
  }

  function DaysIn(year: nat, month: nat): (n: nat)
    ensures 28 <= n <= 31
  {
    if month == 2 then (if IsLeap(year) then 29 else 28)
    else if month == 4 || month == 6 || month == 9 || month == 11 then 30
    else 31
  }

  predicate IsDate(d: Date) {
    1 <= d.year <= MAX_YEAR && 1 <= d.month <= 12 && 1 <= d.day <= DaysIn(d.year, d.month)
  }

  predicate Before(a: Date, b: Date) {
    a.year < b.year || (a.year == b.year && (a.month < b.month || (a.month == b.month && a.day < b.day)))
  }

  function NextDay(d: Date): Date {
    if d.day < DaysIn(d.year, d.month) then Date(d.year, d.month, d.day + 1)
    else if d.month < 12 then Date(d.year, d.month + 1, 1)
    else Date(d.year + 1, 1, 1)
  }

  function AddDays(d: Date, n: nat): Date {
    if n == 0 then d else NextDay(AddDays(d, n - 1))
  }

  // ------------------------------------------------------------ day numbers

  function DaysBeforeYear(year: nat): nat
    requires year >= 1
  {
    if year == 1 then 0 else DaysBeforeYear(year - 1) + (if IsLeap(year - 1) then 366 else 365)
  }

  function DaysBeforeMonth(year: nat, month: nat): nat
    requires month >= 1
  {
    if month == 1 then 0 else DaysBeforeMonth(year, month - 1) + DaysIn(year, month - 1)
  }

  /** The day number of a date, 0001-01-01 being day 1. */
  function Ordinal(d: Date): nat
    requires IsDate(d)
  {
    DaysBeforeYear(d.year) + DaysBeforeMonth(d.year, d.month) + d.day
  }

  /** Monday is 0. */
  function Weekday(d: Date): nat
    requires IsDate(d)
  {
    WeekdayOf(Ordinal(d))
  }

  lemma YearLength(year: nat)
    requires year >= 1
    ensures DaysBeforeYear(year + 1) == DaysBeforeYear(year) + DaysBeforeMonth(year, 12) + 31
  {
    assert DaysBeforeMonth(year, 2) == 31;
    var feb := DaysIn(year, 2);
    assert DaysBeforeMonth(year, 3) == 31 + feb;
    assert DaysBeforeMonth(year, 4) == 62 + feb;
    assert DaysBeforeMonth(year, 5) == 92 + feb;
    assert DaysBeforeMonth(year, 6) == 123 + feb;
    assert DaysBeforeMonth(year, 7) == 153 + feb;
    assert DaysBeforeMonth(year, 8) == 184 + feb;
    assert DaysBeforeMonth(year, 9) == 215 + feb;
    assert DaysBeforeMonth(year, 10) == 245 + feb;
    assert DaysBeforeMonth(year, 11) == 276 + feb;
    assert DaysBeforeMonth(year, 12) == 306 + feb;
  }

  lemma NextDayIsNextOrdinal(d: Date)
    requires IsDate(d) && IsDate(NextDay(d))
    ensures Ordinal(NextDay(d)) == Ordinal(d) + 1
  {
    if d.day == DaysIn(d.year, d.month) && d.month == 12 { YearLength(d.year); }
  }

  lemma {:induction false} LaterYear(a: nat, b: nat)
    requires 1 <= a < b
    ensures DaysBeforeYear(a) + DaysBeforeMonth(a, 12) + 31 <= DaysBeforeYear(b)
    decreases b
  {
    if a + 1 == b {
      YearLength(a);
    } else {
      LaterYear(a, b - 1);
      YearLength(b - 1);
    }
  }

  lemma {:induction false} LaterMonth(year: nat, a: nat, b: nat)
    requires 1 <= a < b
    ensures DaysBeforeMonth(year, a) + DaysIn(year, a) <= DaysBeforeMonth(year, b)
    decreases b
  {
    if a + 1 < b { LaterMonth(year, a, b - 1); }
  }

  lemma OrdinalGrows(a: Date, b: Date)
    requires IsDate(a) && IsDate(b) && Before(a, b)
    ensures Ordinal(a) < Ordinal(b)
  {
    if a.year < b.year {
      LaterYear(a.year, b.year);
      if a.month < 12 { LaterMonth(a.year, a.month, 12); }
    } else if a.month < b.month {
      LaterMonth(a.year, a.month, b.month);
    }
  }

  /** Day numbers order dates as the calendar does. */
  lemma OrdinalOrders(a: Date, b: Date)
    requires IsDate(a) && IsDate(b)
    ensures Before(a, b) <==> Ordinal(a) < Ordinal(b)
  {
    if Before(a, b) { OrdinalGrows(a, b); }
    if Before(b, a) { OrdinalGrows(b, a); }
  }

  /** Adding up to a week from a date before the last year stays on the calendar. */
  lemma {:induction false} AddDaysAdds(d: Date, n: nat)
    requires IsDate(d) && d.year < MAX_YEAR && n <= 7
    ensures IsDate(AddDays(d, n)) && Ordinal(AddDays(d, n)) == Ordinal(d) + n
    ensures AddDays(d, n).year <= d.year + 1 &&
        (AddDays(d, n).year == d.year + 1 ==> AddDays(d, n).month == 1 && AddDays(d, n).day <= n)
    decreases n
  {
    if n > 0 {
      AddDaysAdds(d, n - 1);
      NextDayIsNextOrdinal(AddDays(d, n - 1));
    }
  }

  // ------------------------------------------------------------ day numbers in closed form

  lemma {:induction false} DaysBeforeYearIs(year: nat)
    requires year >= 1
    ensures DaysBeforeYear(year) == 365 * (year - 1) + (year - 1) / 4 - (year - 1) / 100 + (year - 1) / 400
    decreases year
  {
    if year > 1 {
      DaysBeforeYearIs(year - 1);
      MultiplesUpTo(year - 1);
    }
  }

  /** One more multiple is counted at each multiple. */
  lemma MultiplesUpTo(n: nat)
    requires n >= 1
    ensures n / 4 == (n - 1) / 4 + (if n % 4 == 0 then 1 else 0)
    ensures n / 100 == (n - 1) / 100 + (if n % 100 == 0 then 1 else 0)
    ensures n / 400 == (n - 1) / 400 + (if n % 400 == 0 then 1 else 0)
    ensures n % 400 == 0 ==> n % 100 == 0
    ensures n % 100 == 0 ==> n % 4 == 0
  {
  }

  lemma DaysBeforeMonthIs(year: nat, month: nat)
    requires 1 <= month <= 12
    ensures DaysBeforeMonth(year, month) ==
            [0, 31, 59, 90, 120, 151, 181, 212, 243, 273, 304, 334][month - 1] +
            (if month > 2 && IsLeap(year) then 1 else 0)
  {
    assert DaysBeforeMonth(year, 2) == 31;
    assert DaysBeforeMonth(year, 3) == 31 + DaysIn(year, 2);
    assert DaysBeforeMonth(year, 5) == 92 + DaysIn(year, 2);
    assert DaysBeforeMonth(year, 7) == 153 + DaysIn(year, 2);
    assert DaysBeforeMonth(year, 9) == 215 + DaysIn(year, 2);
    assert DaysBeforeMonth(year, 11) == 276 + DaysIn(year, 2);
  }

  /** The day number of every date, without counting, and the years that have a 29 February. */
  lemma OrdinalIs(d: Date)
    requires IsDate(d)
    ensures
      var before := d.year - 1;
      var leap := d.year % 400 == 0 || (d.year % 4 == 0 && d.year % 100 != 0);
      Ordinal(d) == 365 * before + before / 4 - before / 100 + before / 400 +
                    [0, 31, 59, 90, 120, 151, 181, 212, 243, 273, 304, 334][d.month - 1] +
                    (if d.month > 2 && leap then 1 else 0) + d.day
  {
    DaysBeforeYearIs(d.year);
    DaysBeforeMonthIs(d.year, d.month);
  }

  // ------------------------------------------------------------ the days of the week

  const FIRST := Date(1, 1, 1)
  const A_MONDAY := Date(2024, 1, 1)

  lemma DayBefore(d: Date) returns (p: Date)
    requires IsDate(d) && d != FIRST
    ensures IsDate(p) && NextDay(p) == d && Ordinal(p) + 1 == Ordinal(d)
  {
    p := if d.day > 1 then Date(d.year, d.month, d.day - 1)
         else if d.month > 1 then Date(d.year, d.month - 1, DaysIn(d.year, d.month - 1))
         else Date(d.year - 1, 12, 31);
    NextDayIsNextOrdinal(p);
  }

  /** A numbering of the days of the week that goes round from each day to the next, and in which
      1 January 2024 is a Monday. */
  ghost predicate NumbersWeekdays(weekday: Date -> nat) {
    && (forall d | IsDate(d) :: weekday(d) < 7)
    && (forall d {:trigger weekday(NextDay(d))} | IsDate(d) && IsDate(NextDay(d)) ::
          weekday(NextDay(d)) == (weekday(d) + 1) % 7)
    && weekday(A_MONDAY) == 0
  }

  lemma {:induction false} CountedFromFirst(weekday: Date -> nat, d: Date)
    requires NumbersWeekdays(weekday) && IsDate(d)
    ensures weekday(d) == RoundTheWeek(weekday(FIRST), Ordinal(d))
    decreases Ordinal(d)
  {
    if d == FIRST {
      FirstIsDayOne();
      assert weekday(FIRST) < 7;
      OneDayOn(weekday(FIRST), 0);
    } else {
      var p := DayBefore(d);
      CountedFromFirst(weekday, p);
      assert weekday(NextDay(p)) == (weekday(p) + 1) % 7;
      OneDayOn(weekday(FIRST), Ordinal(p));
    }
  }

  /** The weekday of a day number, counted from that of day 1. */
  function RoundTheWeek(first: nat, ordinal: nat): nat {
    if ordinal == 0 then 0 else (first + ordinal - 1) % 7
  }

  lemma OneDayOn(first: nat, ordinal: nat)
    ensures ordinal > 0 ==> RoundTheWeek(first, ordinal + 1) == (RoundTheWeek(first, ordinal) + 1) % 7
    ensures first < 7 ==> RoundTheWeek(first, 1) == first
  {
  }

  lemma FirstIsDayOne()
    ensures IsDate(FIRST) && Ordinal(FIRST) == 1
  {
  }

  lemma NextDayIsNextWeekday(d: Date)
    requires IsDate(d) && IsDate(NextDay(d))
    ensures Weekday(NextDay(d)) == (Weekday(d) + 1) % 7
  {
    NextDayIsNextOrdinal(d);
  }

  lemma AMondayIsOne()
    ensures Ordinal(A_MONDAY) == 738886 && Weekday(A_MONDAY) == 0
  {
    OrdinalIs(A_MONDAY);
  }

  /** There is exactly one such numbering, and it is `Weekday`. */
  lemma WeekdayIsTheOnlyNumbering(weekday: Date -> nat)
    ensures NumbersWeekdays(weekday) <==> forall d | IsDate(d) :: weekday(d) == Weekday(d)
  {
    AMondayIsOne();
    if NumbersWeekdays(weekday) {
      CountedFromFirst(weekday, A_MONDAY);
      forall d | IsDate(d)
        ensures weekday(d) == Weekday(d)
      {
        CountedFromFirst(weekday, d);
      }
    }
    if forall d | IsDate(d) :: weekday(d) == Weekday(d) {
      forall d | IsDate(d) && IsDate(NextDay(d))
        ensures weekday(NextDay(d)) == (weekday(d) + 1) % 7
      {
        NextDayIsNextWeekday(d);
      }
    }
  }

  // ------------------------------------------------------------ resolving phrases

  datatype Phrase =
    | Today
    | Tomorrow
    | ThisWeekend
    | Named(weekday: nat)
    | NextNamed(weekday: nat)
    | NamedMorning(weekday: nat)
    | TheNth(n: nat)
    | Unrecognised

  datatype Resolution = Resolution(date: Option<Date>, needsConfirmation: bool)

  function DaysAhead(weekday: nat, target: nat): nat {
    (target - weekday) % 7
  }

  function NextWeekday(reference: Date, target: nat, todayIsNextWeek: bool): Date
    requires IsDate(reference)
  {
    var ahead := DaysAhead(Weekday(reference), target);
    AddDays(reference, if ahead == 0 && todayIsNextWeek then 7 else ahead)
  }

  /** `date.replace(day=n)`: None when the month has no such day. */
  function ReplaceDay(d: Date, n: nat): Option<Date> {
    if 1 <= n <= DaysIn(d.year, d.month) then Some(Date(d.year, d.month, n)) else None
  }

  function ResolveNth(today: Date, n: nat): Option<Date> {
    if !(1 <= n <= 31) then None
    else match ReplaceDay(today, n)
         case None => None
         case Some(candidate) =>
           if !Before(candidate, today) then Some(candidate)
           else ReplaceDay(AddDays(Date(candidate.year, candidate.month, 28), 4).(day := 1), n)
  }

  function Resolve(phrase: Phrase, today: Date): Resolution
    requires IsDate(today)
  {
    match phrase
    case Today => Resolution(Some(today), false)
    case Tomorrow => Resolution(Some(AddDays(today, 1)), false)
    case ThisWeekend => Resolution(Some(NextWeekday(today, 5, false)), true)
    case Named(w) => Resolution(Some(NextWeekday(today, w, false)), true)
    case NextNamed(w) => Resolution(Some(NextWeekday(today, w, false)), true)
    case NamedMorning(w) => Resolution(Some(NextWeekday(today, w, false)), true)
    case TheNth(n) => Resolution(ResolveNth(today, n), true)
    case Unrecognised => Resolution(None, true)
  }

  /** The earliest date on or after `today` that is wanted. */
  ghost predicate IsEarliest(d: Date, today: Date, wanted: Date -> bool) {
    && IsDate(d) && !Before(d, today) && wanted(d)
    && forall e | IsDate(e) && !Before(e, today) && wanted(e) :: !Before(e, d)
  }

  predicate FallsOn(d: Date, weekday: nat) {
    IsDate(d) && Weekday(d) == weekday
  }

  function WeekdayOf(ordinal: nat): nat {
    (ordinal + 6) % 7
  }

  /** From day number `t`, the first day on a target weekday is `DaysAhead` away. */
  lemma WeekdayGap(t: nat, k: nat, target: nat)
    requires target < 7
    ensures DaysAhead(WeekdayOf(t), target) <= 6
    ensures WeekdayOf(t + DaysAhead(WeekdayOf(t), target)) == target
    ensures WeekdayOf(t + k) == target ==> k >= DaysAhead(WeekdayOf(t), target)
  {
    var w := (t + 6) % 7;
    var ahead := if target >= w then target - w else target - w + 7;
    assert (target - w) % 7 == ahead;
    if k < ahead {
      assert w + k != target && w + k != target + 7;
    }
  }

  lemma NotBeforeNextWeekday(today: Date, e: Date, target: nat)
    requires IsDate(today) && target < 7 && !Before(e, today) && FallsOn(e, target)
    ensures Ordinal(e) >= Ordinal(today) + DaysAhead(Weekday(today), target)
  {
    OrdinalOrders(e, today);
    WeekdayGap(Ordinal(today), Ordinal(e) - Ordinal(today), target);
  }

  lemma NextWeekdayIsEarliest(today: Date, target: nat)
    requires IsDate(today) && today.year < MAX_YEAR && target < 7
    ensures IsEarliest(NextWeekday(today, target, false), today, (d: Date) => FallsOn(d, target))
  {
    var d := NextWeekday(today, target, false);
    WeekdayGap(Ordinal(today), 0, target);
    AddDaysAdds(today, DaysAhead(Weekday(today), target));
    OrdinalOrders(d, today);
    forall e | IsDate(e) && !Before(e, today) && FallsOn(e, target)
      ensures !Before(e, d)
    {
      OrdinalOrders(e, d);
      NotBeforeNextWeekday(today, e, target);
    }
  }

  /** Every phrase that names a weekday resolves to its earliest date on or after today. */
  lemma WeekdaysResolveEarliest(phrase: Phrase, today: Date)
    requires IsDate(today) && today.year < MAX_YEAR
    requires match phrase
             case ThisWeekend => true
             case Named(w) => w < 7
             case NextNamed(w) => w < 7
             case NamedMorning(w) => w < 7
             case _ => false
    ensures
      var target := if phrase.ThisWeekend? then 5 else phrase.weekday;
      var r := Resolve(phrase, today);
      r.needsConfirmation && r.date.Some? && IsEarliest(r.date.value, today, (d: Date) => FallsOn(d, target))
  {
    NextWeekdayIsEarliest(today, if phrase.ThisWeekend? then 5 else phrase.weekday);
  }

  function FirstOfNextMonth(d: Date): Date {
    if d.month == 12 then Date(d.year + 1, 1, 1) else Date(d.year, d.month + 1, 1)
  }

  /** Four days past the 28th is always in the next month. */
  lemma FourDaysPastThe28th(year: nat, month: nat)
    requires 1 <= month <= 12
    ensures AddDays(Date(year, month, 28), 4).(day := 1) == FirstOfNextMonth(Date(year, month, 28))
  {
    var d1 := NextDay(Date(year, month, 28));
    var d2 := NextDay(d1);
    var d3 := NextDay(d2);
    assert AddDays(Date(year, month, 28), 1) == d1;
    assert AddDays(Date(year, month, 28), 2) == d2;
    assert AddDays(Date(year, month, 28), 3) == d3;
  }

  /** "The Nth" resolves to the earliest date on or after today with that day of the month, and
      to nothing exactly when this month has no such day, or it has passed and the next month
      has none. */
  lemma NthResolvesEarliest(today: Date, n: nat)
    requires IsDate(today) && today.year < MAX_YEAR
    ensures
      var r, next := Resolve(TheNth(n), today), FirstOfNextMonth(today);
      && r.needsConfirmation
      && (r.date.None? <==>
            n == 0 || n > DaysIn(today.year, today.month) || (n < today.day && n > DaysIn(next.year, next.month)))
      && (r.date.Some? ==> IsEarliest(r.date.value, today, (d: Date) => d.day == n))
  {
    FourDaysPastThe28th(today.year, today.month);
  }

  /** Today and tomorrow need no confirmation, and tomorrow is the earliest date after today; what
      is not recognised gets no date and does. */
  lemma TodayAndTomorrow(today: Date)
    requires IsDate(today) && today.year < MAX_YEAR
    ensures Resolve(Today, today) == Resolution(Some(today), false)
    ensures Resolve(Unrecognised, today) == Resolution(None, true)
    ensures
      var r := Resolve(Tomorrow, today);
      r.date.Some? && !r.needsConfirmation && IsEarliest(r.date.value, today, (d: Date) => Before(today, d))
  {
    assert AddDays(today, 1) == NextDay(AddDays(today, 0)) == NextDay(today);
    NextDayIsNextOrdinal(today);
    OrdinalOrders(today, NextDay(today));
    forall e | IsDate(e) && Before(today, e)
      ensures !Before(e, NextDay(today))
    {
      OrdinalOrders(today, e);
      OrdinalOrders(e, NextDay(today));
    }
  }
}
