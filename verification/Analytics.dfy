/** Revenue and booking summaries for the dashboard (app/core/admin/analytics.py). A payment's
    day is its formatted creation date. */
module Analytics {
  import opened Wrappers
  import P = PaymentTables
  import Steps = PaymentSteps
  import Runs = PaymentRuns
  import Theorems = PaymentTheorems
  import opened Calendar
  import Ids = FlightIds

  datatype Snapshot = Snapshot(currency: string, amount: int, refunded: Option<int>, day: string)

  type DayKey = (string, string)

  datatype Point = Point(day: string, currency: string, net: int) {
    function Key(): DayKey { (day, currency) }
  }

  function Refund(p: Snapshot): int {
    p.refunded.GetOr(0)
  }

  // ------------------------------------------------------------ what is summed

  datatype Measure =
    | GrossIn(currency: string)
    | RefundedIn(currency: string)
    | NetIn(currency: string)
    | NetOn(key: DayKey)

  function Value(m: Measure, p: Snapshot): int {
    match m
    case GrossIn(c) => if p.currency == c then p.amount else 0
    case RefundedIn(c) => if p.currency == c then Refund(p) else 0
    case NetIn(c) => if p.currency == c then p.amount - Refund(p) else 0
    case NetOn(key) => if (p.day, p.currency) == key then p.amount - Refund(p) else 0
  }

  function Total(ps: seq<Snapshot>, m: Measure): int {
    if ps == [] then 0 else Total(ps[..|ps| - 1], m) + Value(m, ps[|ps| - 1])
  }

  function Currencies(ps: seq<Snapshot>): set<string> {
    set p | p in ps :: p.currency
  }

  function Days(ps: seq<Snapshot>): set<DayKey> {
    set p | p in ps :: (p.day, p.currency)
  }

  // ------------------------------------------------------------ the order of the daily list

  predicate Less(a: string, b: string) {
    b != [] && (a == [] || a[0] < b[0] || (a[0] == b[0] && Less(a[1..], b[1..])))
  }

  predicate KeyLess(a: DayKey, b: DayKey) {
    Less(a.0, b.0) || (a.0 == b.0 && Less(a.1, b.1))
  }

  lemma {:induction false} LessIsTotal(a: string, b: string)
    ensures a == b || Less(a, b) || Less(b, a)
    ensures !(Less(a, b) && Less(b, a))
    ensures a == b ==> !Less(a, b)
    decreases |a| + |b|
  {
    if a != [] && b != [] {
      LessIsTotal(a[1..], b[1..]);
      if a[0] == b[0] && a[1..] == b[1..] { assert a == [a[0]] + a[1..] && b == [b[0]] + b[1..]; }
    }
  }

  lemma {:induction false} LessIsTransitive(a: string, b: string, c: string)
    requires Less(a, b) && Less(b, c)
    ensures Less(a, c)
    decreases |a|
  {
    if a != [] && a[0] == b[0] == c[0] { LessIsTransitive(a[1..], b[1..], c[1..]); }
  }

  lemma KeyLessOrders(a: DayKey, b: DayKey, c: DayKey)
    ensures a == b || KeyLess(a, b) || KeyLess(b, a)
    ensures !(KeyLess(a, b) && KeyLess(b, a)) && !KeyLess(a, a)
    ensures KeyLess(a, b) && KeyLess(b, c) ==> KeyLess(a, c)
  {
    LessIsTotal(a.0, b.0);
    LessIsTotal(a.1, b.1);
    LessIsTotal(a.0, a.0);
    LessIsTotal(a.1, a.1);
    if Less(a.0, b.0) && Less(b.0, c.0) { LessIsTransitive(a.0, b.0, c.0); }
    if Less(a.1, b.1) && Less(b.1, c.1) { LessIsTransitive(a.1, b.1, c.1); }
  }

  ghost predicate StrictlySorted(points: seq<Point>) {
    forall i, j | 0 <= i < j < |points| :: KeyLess(points[i].Key(), points[j].Key())
  }

  function Insert(points: seq<Point>, p: Point): seq<Point> {
    if points == [] || KeyLess(p.Key(), points[0].Key()) then [p] + points
    else [points[0]] + Insert(points[1..], p)
  }

  function PointSet(points: seq<Point>): set<Point> {
    set p | p in points
  }

  lemma {:induction false} InsertKeepsSorted(points: seq<Point>, p: Point)
    requires StrictlySorted(points) && forall q | q in points :: q.Key() != p.Key()
    ensures StrictlySorted(Insert(points, p)) && PointSet(Insert(points, p)) == PointSet(points) + {p}
    decreases |points|
  {
    if points != [] {
      assert points == [points[0]] + points[1..];
      if KeyLess(p.Key(), points[0].Key()) {
        forall j | 0 <= j < |points|
          ensures KeyLess(p.Key(), points[j].Key())
        {
          KeyLessOrders(p.Key(), points[0].Key(), points[j].Key());
        }
      } else {
        InsertKeepsSorted(points[1..], p);
        var rest := Insert(points[1..], p);
        KeyLessOrders(p.Key(), points[0].Key(), p.Key());
        forall j | 0 <= j < |rest|
          ensures KeyLess(points[0].Key(), rest[j].Key())
        {
          assert rest[j] in PointSet(rest);
          if rest[j] != p { assert rest[j] in points[1..]; }
        }
      }
    }
  }

  /** `sorted(daily.items())` as points. */
  method SortDays(daily: map<DayKey, int>) returns (points: seq<Point>)
    ensures StrictlySorted(points)
    ensures PointSet(points) == set key | key in daily :: Point(key.0, key.1, daily[key])
  {
    points := [];
    var left := daily.Keys;
    while left != {}
      invariant left <= daily.Keys && StrictlySorted(points)
      invariant PointSet(points) == set key | key in daily && key !in left :: Point(key.0, key.1, daily[key])
      decreases left
    {
      var key :| key in left;
      var p := Point(key.0, key.1, daily[key]);
      forall q | q in points
        ensures q.Key() != key
      {
        assert q in PointSet(points);
      }
      InsertKeepsSorted(points, p);
      points := Insert(points, p);
      left := left - {key};
    }
  }

  function Add(sums: map<string, int>, currency: string, amount: int): map<string, int> {
    sums[currency := (if currency in sums then sums[currency] else 0) + amount]
  }

  function AddDay(sums: map<DayKey, int>, key: DayKey, amount: int): map<DayKey, int> {
    sums[key := (if key in sums then sums[key] else 0) + amount]
  }

  function GrossTable(ps: seq<Snapshot>): map<string, int> {
    map c | c in Currencies(ps) :: Total(ps, GrossIn(c))
  }

  function NetTable(ps: seq<Snapshot>): map<string, int> {
    map c | c in Currencies(ps) :: Total(ps, NetIn(c))
  }

  function DailyTable(ps: seq<Snapshot>): map<DayKey, int> {
    map key | key in Days(ps) :: Total(ps, NetOn(key))
  }

  /** A currency or day that does not occur totals to nothing. */
  lemma {:induction false} AbsentTotals(ps: seq<Snapshot>)
    ensures forall c | c !in Currencies(ps) :: Total(ps, GrossIn(c)) == 0 && Total(ps, NetIn(c)) == 0
    ensures forall key | key !in Days(ps) :: Total(ps, NetOn(key)) == 0
    decreases |ps|
  {
    if ps != [] {
      var init := ps[..|ps| - 1];
      AbsentTotals(init);
      assert ps == init + [ps[|ps| - 1]];
      assert forall c | c !in Currencies(ps) :: c !in Currencies(init);
      assert forall key | key !in Days(ps) :: key !in Days(init);
    }
  }

  lemma TablesGrow(ps: seq<Snapshot>, p: Snapshot)
    ensures forall m :: Total(ps + [p], m) == Total(ps, m) + Value(m, p)
    ensures Currencies(ps + [p]) == Currencies(ps) + {p.currency}
    ensures Days(ps + [p]) == Days(ps) + {(p.day, p.currency)}
  {
    assert (ps + [p])[..|ps|] == ps;
  }

  lemma GrossGrows(ps: seq<Snapshot>, p: Snapshot)
    ensures GrossTable(ps + [p]) == Add(GrossTable(ps), p.currency, p.amount)
  {
    TablesGrow(ps, p);
    AbsentTotals(ps);
  }

  lemma NetGrows(ps: seq<Snapshot>, p: Snapshot)
    ensures NetTable(ps + [p]) == Add(NetTable(ps), p.currency, p.amount - Refund(p))
  {
    TablesGrow(ps, p);
    AbsentTotals(ps);
  }

  lemma DailyGrows(ps: seq<Snapshot>, p: Snapshot)
    ensures DailyTable(ps + [p]) == AddDay(DailyTable(ps), (p.day, p.currency), p.amount - Refund(p))
  {
    TablesGrow(ps, p);
    AbsentTotals(ps);
  }

  /** The daily list: one point per day and currency that occurs, strictly sorted. */
  ghost predicate IsDaily(ps: seq<Snapshot>, points: seq<Point>) {
    StrictlySorted(points) && PointSet(points) == set key | key in Days(ps) ::
        Point(key.0, key.1, Total(ps, NetOn(key)))
  }

  lemma SortedIsDaily(ps: seq<Snapshot>, daily: map<DayKey, int>, points: seq<Point>)
    requires daily == DailyTable(ps) && StrictlySorted(points)
    requires PointSet(points) == set key | key in daily :: Point(key.0, key.1, daily[key])
    ensures IsDaily(ps, points)
  {
    assert daily.Keys == Days(ps);
    assert forall key | key in Days(ps) :: daily[key] == Total(ps, NetOn(key));
    var wanted := set key | key in Days(ps) :: Point(key.0, key.1, Total(ps, NetOn(key)));
    forall p
      ensures p in PointSet(points) <==> p in wanted
    {
      if p in PointSet(points) {
        var key :| key in daily && p == Point(key.0, key.1, daily[key]);
      }
      if p in wanted {
        var key :| key in Days(ps) && p == Point(key.0, key.1, Total(ps, NetOn(key)));
        assert key in daily && p == Point(key.0, key.1, daily[key]);
      }
    }
  }

  datatype Sums = Sums(gross: map<string, int>, net: map<string, int>, daily: map<DayKey, int>)

  function AddPayment(sums: Sums, p: Snapshot): Sums {
    var netAmount := p.amount - Refund(p);
    Sums(Add(sums.gross, p.currency, p.amount), Add(sums.net, p.currency, netAmount),
         AddDay(sums.daily, (p.day, p.currency), netAmount))
  }

  /** The three running tables. */
  function Fold(ps: seq<Snapshot>): Sums {
    if ps == [] then Sums(map[], map[], map[]) else AddPayment(Fold(ps[..|ps| - 1]), ps[|ps| - 1])
  }

  function TablesOf(ps: seq<Snapshot>): Sums {
    Sums(GrossTable(ps), NetTable(ps), DailyTable(ps))
  }

  lemma TablesFold(ps: seq<Snapshot>, p: Snapshot)
    ensures TablesOf(ps + [p]) == AddPayment(TablesOf(ps), p)
  {
    GrossGrows(ps, p);
    NetGrows(ps, p);
    DailyGrows(ps, p);
  }

  lemma {:induction false} FoldSums(ps: seq<Snapshot>)
    ensures Fold(ps) == TablesOf(ps)
    decreases |ps|
  {
    if ps == [] {
      assert GrossTable(ps) == map[] && NetTable(ps) == map[] && DailyTable(ps) == map[];
    } else {
      var init := ps[..|ps| - 1];
      FoldSums(init);
      TablesFold(init, ps[|ps| - 1]);
      assert ps == init + [ps[|ps| - 1]];
    }
  }

  method SummarizeRevenue(ps: seq<Snapshot>)
      returns (gross: map<string, int>, net: map<string, int>, points: seq<Point>)
    ensures gross == GrossTable(ps) && net == NetTable(ps) && IsDaily(ps, points)
  {
    gross, net := map[], map[];
    var daily: map<DayKey, int> := map[];
    for i := 0 to |ps|
      invariant Sums(gross, net, daily) == Fold(ps[..i])
    {
      var p := ps[i];
      assert ps[..i + 1][..i] == ps[..i];
      gross := Add(gross, p.currency, p.amount);
      var netAmount := p.amount - p.refunded.GetOr(0);
      net := Add(net, p.currency, netAmount);
      daily := AddDay(daily, (p.day, p.currency), netAmount);
    }
    assert ps[..|ps|] == ps;
    FoldSums(ps);
    points := SortDays(daily);
    SortedIsDaily(ps, daily, points);
  }

  // ------------------------------------------------------------ what the folds guarantee

  lemma {:induction false} NetIsGrossMinusRefunds(ps: seq<Snapshot>, currency: string)
    ensures Total(ps, NetIn(currency)) == Total(ps, GrossIn(currency)) - Total(ps, RefundedIn(currency))
    decreases |ps|
  {
    if ps != [] { NetIsGrossMinusRefunds(ps[..|ps| - 1], currency); }
  }

  /** Where nothing was refunded for more or less than nothing, net is gross exactly when no payment
      of the currency has a refund. */
  lemma {:induction false} NetIsGrossExactlyWhen(ps: seq<Snapshot>, currency: string)
    requires forall p | p in ps :: 0 <= Refund(p)
    ensures Total(ps, NetIn(currency)) <= Total(ps, GrossIn(currency))
    ensures Total(ps, NetIn(currency)) == Total(ps, GrossIn(currency)) <==>
            forall p | p in ps && p.currency == currency :: p.refunded.None? || p.refunded == Some(0)
    decreases |ps|
  {
    if ps != [] {
      var init, last := ps[..|ps| - 1], ps[|ps| - 1];
      assert ps == init + [last];
      NetIsGrossExactlyWhen(init, currency);
    }
  }

  /** The points of one currency, added up. */
  function SumOfPoints(points: seq<Point>, currency: string): int {
    if points == [] then 0
    else (if points[0].currency == currency then points[0].net else 0) + SumOfPoints(points[1..], currency)
  }

  /** The totals of the days a list names, added up for one currency. */
  function SumOverDays(ps: seq<Snapshot>, keys: seq<DayKey>, currency: string): int {
    if keys == [] then 0
    else (if keys[0].1 == currency then Total(ps, NetOn(keys[0])) else 0) + SumOverDays(ps, keys[1..], currency)
  }

  ghost predicate Distinct(keys: seq<DayKey>) {
    forall i, j | 0 <= i < j < |keys| :: keys[i] != keys[j]
  }

  /** One more payment raises the sum by its net amount once if its day is listed. */
  lemma {:induction false} SumOverDaysGrows(ps: seq<Snapshot>, p: Snapshot, keys: seq<DayKey>, currency: string)
    requires Distinct(keys)
    ensures SumOverDays(ps + [p], keys, currency) == SumOverDays(ps, keys, currency) +
            (if (p.day, p.currency) in keys then Value(NetIn(currency), p) else 0)
    decreases |keys|
  {
    TablesGrow(ps, p);
    if keys != [] {
      assert keys == [keys[0]] + keys[1..];
      SumOverDaysGrows(ps, p, keys[1..], currency);
    }
  }

  lemma {:induction false} SumOverNoPayments(keys: seq<DayKey>, currency: string)
    ensures SumOverDays([], keys, currency) == 0
    decreases |keys|
  {
    if keys != [] { SumOverNoPayments(keys[1..], currency); }
  }

  lemma {:induction false} DaysSumToNet(ps: seq<Snapshot>, keys: seq<DayKey>, currency: string)
    requires Distinct(keys) && forall key | key in Days(ps) :: key in keys
    ensures SumOverDays(ps, keys, currency) == Total(ps, NetIn(currency))
    decreases |ps|
  {
    if ps == [] {
      SumOverNoPayments(keys, currency);
    } else {
      var init, p := ps[..|ps| - 1], ps[|ps| - 1];
      assert ps == init + [p];
      TablesGrow(init, p);
      DaysSumToNet(init, keys, currency);
      SumOverDaysGrows(init, p, keys, currency);
    }
  }

  function KeysOf(points: seq<Point>): seq<DayKey> {
    seq(|points|, i requires 0 <= i < |points| => points[i].Key())
  }

  lemma {:induction false} PointsSumOverDays(ps: seq<Snapshot>, points: seq<Point>, currency: string)
    requires forall p | p in points :: p.net == Total(ps, NetOn(p.Key()))
    ensures SumOfPoints(points, currency) == SumOverDays(ps, KeysOf(points), currency)
    decreases |points|
  {
    if points != [] {
      assert KeysOf(points)[1..] == KeysOf(points[1..]);
      PointsSumOverDays(ps, points[1..], currency);
    }
  }

  /** Per currency, the daily points add up to the net revenue. */
  lemma DailyPointsSumToNet(ps: seq<Snapshot>, points: seq<Point>, currency: string)
    requires IsDaily(ps, points)
    ensures SumOfPoints(points, currency) == Total(ps, NetIn(currency))
  {
    var keys := KeysOf(points);
    forall p | p in points
      ensures p.net == Total(ps, NetOn(p.Key()))
    {
      assert p in PointSet(points);
    }
    forall i, j | 0 <= i < j < |keys|
      ensures keys[i] != keys[j]
    {
      KeyLessOrders(points[i].Key(), points[j].Key(), points[i].Key());
    }
    forall key | key in Days(ps)
      ensures key in keys
    {
      var p := Point(key.0, key.1, Total(ps, NetOn(key)));
      assert p in PointSet(points);
      var i :| 0 <= i < |points| && points[i] == p;
      assert keys[i] == key;
    }
    PointsSumOverDays(ps, points, currency);
    DaysSumToNet(ps, keys, currency);
  }

  // ------------------------------------------------------------ the order of the payments does not matter

  lemma {:induction false} TotalOfBoth(ps: seq<Snapshot>, qs: seq<Snapshot>, m: Measure)
    ensures Total(ps + qs, m) == Total(ps, m) + Total(qs, m)
    decreases |qs|
  {
    if qs == [] {
      assert ps + qs == ps;
    } else {
      assert (ps + qs)[..|ps + qs| - 1] == ps + qs[..|qs| - 1];
      TotalOfBoth(ps, qs[..|qs| - 1], m);
    }
  }

  lemma TotalOfRemoved(ps: seq<Snapshot>, i: nat, m: Measure)
    requires i < |ps|
    ensures Total(ps, m) == Total(ps[..i] + ps[i + 1..], m) + Value(m, ps[i])
  {
    var upTo, rest := ps[..i + 1], ps[i + 1..];
    assert upTo[..i] == ps[..i] && ps == upTo + rest;
    TotalOfBoth(upTo, rest, m);
    TotalOfBoth(ps[..i], rest, m);
  }

  lemma SameRest(a: multiset<Snapshot>, b: multiset<Snapshot>, p: Snapshot)
    requires a + multiset{p} == b + multiset{p}
    ensures a == b
  {
    assert a == a + multiset{p} - multiset{p};
    assert b == b + multiset{p} - multiset{p};
  }

  lemma RemovedMultiset(qs: seq<Snapshot>, i: nat)
    requires i < |qs|
    ensures multiset(qs) == multiset(qs[..i] + qs[i + 1..]) + multiset{qs[i]}
  {
    assert qs == qs[..i] + [qs[i]] + qs[i + 1..];
  }

  lemma {:induction false} TotalIgnoresOrder(ps: seq<Snapshot>, qs: seq<Snapshot>, m: Measure)
    requires multiset(ps) == multiset(qs)
    ensures Total(ps, m) == Total(qs, m)
    decreases |ps|
  {
    if ps == [] {
      assert |multiset(qs)| == 0;
    } else {
      var init, p := ps[..|ps| - 1], ps[|ps| - 1];
      assert ps == init + [p];
      assert p in multiset(qs);
      var i :| 0 <= i < |qs| && qs[i] == p;
      var rest := qs[..i] + qs[i + 1..];
      RemovedMultiset(qs, i);
      assert multiset(ps) == multiset(init) + multiset{p};
      SameRest(multiset(init), multiset(rest), p);
      TotalIgnoresOrder(init, rest, m);
      TotalOfRemoved(qs, i, m);
    }
  }

  lemma EmptyListOfPoints(points: seq<Point>)
    ensures PointSet(points) == {} ==> points == []
  {
    if points != [] { assert points[0] in PointSet(points); }
  }

  /** A strictly sorted list is fixed by what it contains. */
  lemma {:induction false} SortedIsUnique(a: seq<Point>, b: seq<Point>)
    requires StrictlySorted(a) && StrictlySorted(b) && PointSet(a) == PointSet(b)
    ensures a == b
    decreases |a|
  {
    if a == [] {
      assert PointSet(a) == {};
      EmptyListOfPoints(b);
    } else {
      assert a[0] in PointSet(b);
      assert b[0] in PointSet(a);
      var i :| 0 <= i < |b| && b[i] == a[0];
      var j :| 0 <= j < |a| && a[j] == b[0];
      KeyLessOrders(a[0].Key(), b[0].Key(), a[0].Key());
      assert a[0] == b[0];
      forall p
        ensures p in PointSet(a[1..]) <==> p in PointSet(a) && p != a[0]
        ensures p in PointSet(b[1..]) <==> p in PointSet(b) && p != b[0]
      {
        TailOfSorted(a, p);
        TailOfSorted(b, p);
      }
      SortedIsUnique(a[1..], b[1..]);
    }
  }

  lemma TailOfSorted(a: seq<Point>, p: Point)
    requires StrictlySorted(a) && a != []
    ensures p in PointSet(a[1..]) <==> p in PointSet(a) && p != a[0]
  {
    assert a == [a[0]] + a[1..];
    KeyLessOrders(a[0].Key(), a[0].Key(), a[0].Key());
    forall k | 0 <= k < |a[1..]|
      ensures a[1..][k] != a[0]
    {
      assert KeyLess(a[0].Key(), a[k + 1].Key());
    }
  }

  /** Every result is the same for the same payments in any order. */
  lemma RevenueIgnoresOrder(ps: seq<Snapshot>, qs: seq<Snapshot>, a: seq<Point>, b: seq<Point>)
    requires multiset(ps) == multiset(qs) && IsDaily(ps, a) && IsDaily(qs, b)
    ensures GrossTable(ps) == GrossTable(qs) && NetTable(ps) == NetTable(qs) && a == b
  {
    forall p ensures p in ps <==> p in qs {
      assert p in multiset(ps) <==> p in multiset(qs);
    }
    forall m: Measure ensures Total(ps, m) == Total(qs, m) {
      TotalIgnoresOrder(ps, qs, m);
    }
    assert Days(ps) == Days(qs) && Currencies(ps) == Currencies(qs);
    assert PointSet(a) == PointSet(b);
    SortedIsUnique(a, b);
  }

  // ------------------------------------------------------------ the daily list is in calendar order

  lemma {:induction false} LessOfBoth(a: string, b: string, c: string, d: string)
    requires |a| == |c|
    ensures Less(a + b, c + d) <==> Less(a, c) || (a == c && Less(b, d))
    decreases |a|
  {
    if a == [] {
      assert a + b == b && c + d == d;
    } else {
      assert (a + b)[1..] == a[1..] + b && (c + d)[1..] == c[1..] + d;
      LessOfBoth(a[1..], b, c[1..], d);
      assert a == [a[0]] + a[1..] && c == [c[0]] + c[1..];
    }
  }

  lemma DigitsOrder(m: nat, n: nat)
    requires m < 10 && n < 10
    ensures Less([Ids.Digit(m)], [Ids.Digit(n)]) <==> m < n
    ensures [Ids.Digit(m)] == [Ids.Digit(n)] <==> m == n
  {
    assert Ids.Digit(m) < Ids.Digit(n) <==> m < n;
    assert [Ids.Digit(m)][1..] == [] && [Ids.Digit(n)][1..] == [];
    assert [Ids.Digit(m)][0] == Ids.Digit(m) && [Ids.Digit(n)][0] == Ids.Digit(n);
  }

  /** Padded numbers are ordered as text as they are as numbers. */
  lemma {:induction false} PaddedOrders(m: nat, n: nat, width: nat)
    requires m < Ids.Pow10(width) && n < Ids.Pow10(width)
    ensures Less(Ids.Padded(m, width), Ids.Padded(n, width)) <==> m < n
    ensures Ids.Padded(m, width) == Ids.Padded(n, width) <==> m == n
    decreases width
  {
    if width > 0 {
      assert Ids.Pow10(width) == 10 * Ids.Pow10(width - 1);
      PaddedOrders(m / 10, n / 10, width - 1);
      var a, c := Ids.Padded(m / 10, width - 1), Ids.Padded(n / 10, width - 1);
      DigitsOrder(m % 10, n % 10);
      LessOfBoth(a, [Ids.Digit(m % 10)], c, [Ids.Digit(n % 10)]);
      SameParts(a, [Ids.Digit(m % 10)], c, [Ids.Digit(n % 10)]);
    }
  }

  lemma SameParts(a: string, b: string, c: string, d: string)
    requires |a| == |c|
    ensures a + b == c + d <==> a == c && b == d
  {
    if a + b == c + d {
      assert a == (a + b)[..|a|] == (c + d)[..|c|] == c;
      assert b == (a + b)[|a|..] == (c + d)[|c|..] == d;
    }
  }

  /** Formatted dates are ordered as text as the calendar orders them. */
  lemma IsoDateOrders(d: Date, e: Date)
    requires IsDate(d) && IsDate(e)
    ensures Less(Ids.IsoDate(d), Ids.IsoDate(e)) <==> Before(d, e)
    ensures Ids.IsoDate(d) == Ids.IsoDate(e) <==> d == e
  {
    assert Ids.Pow10(2) == 100 && Ids.Pow10(4) == 10000;
    PaddedOrders(d.year, e.year, 4);
    PaddedOrders(d.month, e.month, 2);
    PaddedOrders(d.day, e.day, 2);
    var year, month, day := Ids.Padded(d.year, 4), Ids.Padded(d.month, 2), Ids.Padded(d.day, 2);
    var year', month', day' := Ids.Padded(e.year, 4), Ids.Padded(e.month, 2), Ids.Padded(e.day, 2);
    DashedOrders(year + ['-'] + month, day, year' + ['-'] + month', day');
    DashedOrders(year, month, year', month');
  }

  lemma DashedOrders(a: string, b: string, c: string, d: string)
    requires |a| == |c|
    ensures Less(a + ['-'] + b, c + ['-'] + d) <==> Less(a, c) || (a == c && Less(b, d))
    ensures a + ['-'] + b == c + ['-'] + d <==> a == c && b == d
  {
    LessOfBoth(a + ['-'], b, c + ['-'], d);
    LessOfBoth(a, ['-'], c, ['-']);
    LessIsTotal(['-'], ['-']);
    SameParts(a + ['-'], b, c + ['-'], d);
    SameParts(a, ['-'], c, ['-']);
  }

  /** The daily points come in the order of the calendar, and on one day by currency. */
  lemma DailyPointsAreChronological(ps: seq<Snapshot>, points: seq<Point>, i: nat, j: nat, d: Date, e: Date)
    requires IsDaily(ps, points) && i < j < |points| && IsDate(d) && IsDate(e)
    requires points[i].day == Ids.IsoDate(d) && points[j].day == Ids.IsoDate(e)
    ensures Before(d, e) || (d == e && Less(points[i].currency, points[j].currency))
  {
    IsoDateOrders(d, e);
  }

  // ------------------------------------------------------------ with the refund bound

  lemma {:induction false} NetIsBetween(ps: seq<Snapshot>, currency: string)
    requires forall p | p in ps :: 0 <= Refund(p) <= p.amount
    ensures 0 <= Total(ps, NetIn(currency)) <= Total(ps, GrossIn(currency))
    decreases |ps|
  {
    if ps != [] {
      assert ps[|ps| - 1] in ps;
      NetIsBetween(ps[..|ps| - 1], currency);
    }
  }

  predicate Snaps(s: Snapshot, p: P.Payment) {
    s.amount == p.amount && s.refunded == p.refunded
  }

  /** Over payments taken from any reached database, net revenue is between nothing and gross. */
  lemma RevenueIsBounded(before: seq<Runs.Step>, ps: seq<Snapshot>, currency: string)
    requires forall s | s in ps :: exists p | p in Runs.Run(Runs.EMPTY, before).db.payments :: Snaps(s, p)
    ensures 0 <= Total(ps, NetIn(currency)) <= Total(ps, GrossIn(currency))
  {
    Theorems.ReachedIsValid(before);
    forall s | s in ps
      ensures 0 <= Refund(s) <= s.amount
    {
      var p :| p in Runs.Run(Runs.EMPTY, before).db.payments && Snaps(s, p);
      assert Runs.RefundBounded(p);
    }
    NetIsBetween(ps, currency);
  }

  // ------------------------------------------------------------ booking counts

  datatype BookingSnapshot = BookingSnapshot(status: string, payment: string)

  function CountStatus(bs: seq<BookingSnapshot>, status: string): nat {
    if bs == [] then 0 else CountStatus(bs[..|bs| - 1], status) + (if bs[|bs| - 1].status == status then 1 else 0)
  }

  function Statuses(bs: seq<BookingSnapshot>): set<string> {
    set b | b in bs :: b.status
  }

  function StatusCounts(bs: seq<BookingSnapshot>): map<string, nat> {
    map s | s in Statuses(bs) :: CountStatus(bs, s)
  }

  function SumOfCounts(bs: seq<BookingSnapshot>, statuses: seq<string>): nat {
    if statuses == [] then 0 else CountStatus(bs, statuses[0]) + SumOfCounts(bs, statuses[1..])
  }

  ghost predicate NoRepeats(statuses: seq<string>) {
    forall i, j | 0 <= i < j < |statuses| :: statuses[i] != statuses[j]
  }

  lemma {:induction false} SumOfCountsGrows(bs: seq<BookingSnapshot>, b: BookingSnapshot, statuses: seq<string>)
    requires NoRepeats(statuses)
    ensures SumOfCounts(bs + [b], statuses) == SumOfCounts(bs, statuses) + (if b.status in statuses then 1 else 0)
    decreases |statuses|
  {
    if statuses != [] {
      assert statuses == [statuses[0]] + statuses[1..];
      assert (bs + [b])[..|bs|] == bs;
      SumOfCountsGrows(bs, b, statuses[1..]);
    }
  }

  lemma {:induction false} NoBookingsNoCounts(statuses: seq<string>)
    ensures SumOfCounts([], statuses) == 0
    decreases |statuses|
  {
    if statuses != [] { NoBookingsNoCounts(statuses[1..]); }
  }

  lemma {:induction false} CountsSum(bs: seq<BookingSnapshot>, statuses: seq<string>)
    requires NoRepeats(statuses) && forall s | s in Statuses(bs) :: s in statuses
    ensures SumOfCounts(bs, statuses) == |bs|
    decreases |bs|
  {
    if bs == [] {
      NoBookingsNoCounts(statuses);
    } else {
      var init, b := bs[..|bs| - 1], bs[|bs| - 1];
      assert bs == init + [b];
      assert b.status in Statuses(bs);
      assert forall s | s in Statuses(init) :: s in Statuses(bs);
      CountsSum(init, statuses);
      SumOfCountsGrows(init, b, statuses);
    }
  }

  /** The values of a map under the listed keys, added up. */
  function SumOfValues(counts: map<string, nat>, keys: seq<string>): nat
    requires forall k | k in keys :: k in counts
  {
    if keys == [] then 0 else counts[keys[0]] + SumOfValues(counts, keys[1..])
  }

  lemma {:induction false} ValuesAreCounts(bs: seq<BookingSnapshot>, statuses: seq<string>)
    requires forall s | s in statuses :: s in StatusCounts(bs)
    ensures SumOfValues(StatusCounts(bs), statuses) == SumOfCounts(bs, statuses)
    decreases |statuses|
  {
    if statuses != [] { ValuesAreCounts(bs, statuses[1..]); }
  }

  /** However its keys are listed, the values of the returned map add up to the number of
      bookings; it has a key for every status that occurs, and no value is zero. */
  lemma CountsSumToTotal(bs: seq<BookingSnapshot>, statuses: seq<string>)
    requires NoRepeats(statuses) && forall s :: s in statuses <==> s in StatusCounts(bs)
    ensures SumOfValues(StatusCounts(bs), statuses) == |bs|
    ensures forall b | b in bs :: b.status in StatusCounts(bs)
    ensures forall s | s in StatusCounts(bs) :: StatusCounts(bs)[s] > 0
  {
    ValuesAreCounts(bs, statuses);
    CountsSum(bs, statuses);
    forall s | s in StatusCounts(bs)
      ensures CountStatus(bs, s) > 0
    {
      OccurringIsCounted(bs, s);
    }
  }

  lemma {:induction false} OccurringIsCounted(bs: seq<BookingSnapshot>, status: string)
    requires status in Statuses(bs)
    ensures CountStatus(bs, status) > 0
    decreases |bs|
  {
    var init := bs[..|bs| - 1];
    if bs[|bs| - 1].status != status {
      assert bs == init + [bs[|bs| - 1]];
      OccurringIsCounted(init, status);
    }
  }
}
