/** Printing and parsing a flight id (app/providers/airline/mock.py, app/providers/airline/base.py).
    Dates use the extended calendar format of section 4.1.2.2 of ISO 8601:2004. */
module FlightIds {
  import opened Wrappers
  import opened Calendar

  datatype Cabin = Economy | PremiumEconomy | Business | First | Charter

  datatype FlightKey = FlightKey(origin: string, destination: string, date: Date, index: int, cabin: Cabin)

  function CabinName(c: Cabin): string {
    match c
    case Economy => "economy"
    case PremiumEconomy => "premium_economy"
    case Business => "business"
    case First => "first"
    case Charter => "charter"
  }

  function ParseCabin(s: string): Option<Cabin> {
    if s == "economy" then Some(Economy)
    else if s == "premium_economy" then Some(PremiumEconomy)
    else if s == "business" then Some(Business)
    else if s == "first" then Some(First)
    else if s == "charter" then Some(Charter)
    else None
  }

  // ------------------------------------------------------------ numbers

  function Digit(d: nat): char
    requires d < 10
  {
    ['0', '1', '2', '3', '4', '5', '6', '7', '8', '9'][d]
  }

  function DigitValue(c: char): Option<nat> {
    if '0' <= c <= '9' then Some((c - '0') as nat) else None
  }

  function Digits(n: nat): (s: string)
    ensures s != []
  {
    if n < 10 then [Digit(n)] else Digits(n / 10) + [Digit(n % 10)]
  }

  function IntString(n: int): string {
    if n < 0 then ['-'] + Digits(-n) else Digits(n)
  }

  /** One or more decimal digits. */
  function ParseDigits(s: string): Option<nat> {
    if s == [] then None
    else
      var last := DigitValue(s[|s| - 1]);
      if last.None? then None
      else if |s| == 1 then last
      else
        var init := ParseDigits(s[..|s| - 1]);
        if init.None? then None else Some(10 * init.value + last.value)
  }

  /** Decimal digits behind an optional sign. */
  function ParseInt(s: string): Option<int> {
    if s != [] && (s[0] == '-' || s[0] == '+') then
      (match ParseDigits(s[1..])
       case None => None
       case Some(n) => var v: int := n; Some(if s[0] == '-' then -v else v))
    else
      match ParseDigits(s)
      case None => None
      case Some(n) => Some(n as int)
  }

  predicate AllDigits(s: string) {
    forall c | c in s :: '0' <= c <= '9'
  }

  lemma {:induction false} DigitsParse(n: nat)
    ensures ParseDigits(Digits(n)) == Some(n) && AllDigits(Digits(n))
  {
    var s := Digits(n);
    if n >= 10 {
      DigitsParse(n / 10);
      assert s[..|s| - 1] == Digits(n / 10) && s[|s| - 1] == Digit(n % 10);
    }
  }

  lemma IntParses(n: int)
    ensures ParseInt(IntString(n)) == Some(n) && '_' !in IntString(n)
  {
    DigitsParse(if n < 0 then -n else n);
    if n < 0 {
      assert IntString(n)[1..] == Digits(-n);
    } else {
      assert Digits(n)[0] in Digits(n);
    }
  }

  // ------------------------------------------------------------ dates

  /** Zero-padded to a fixed width. */
  function Padded(n: nat, width: nat): (s: string)
    ensures |s| == width
  {
    if width == 0 then [] else Padded(n / 10, width - 1) + [Digit(n % 10)]
  }

  function Pow10(k: nat): nat {
    if k == 0 then 1 else 10 * Pow10(k - 1)
  }

  function IsoDate(d: Date): string
    requires IsDate(d)
  {
    Padded(d.year, 4) + ['-'] + Padded(d.month, 2) + ['-'] + Padded(d.day, 2)
  }

  function ParseIsoDate(s: string): (r: Option<Date>)
    ensures r.Some? ==> IsDate(r.value)
  {
    if |s| != 10 || s[4] != '-' || s[7] != '-' then None
    else
      match (ParseDigits(s[..4]), ParseDigits(s[5..7]), ParseDigits(s[8..]))
      case (Some(y), Some(m), Some(d)) => if IsDate(Date(y, m, d)) then Some(Date(y, m, d)) else None
      case _ => None
  }

  lemma {:induction false} PaddedParses(n: nat, width: nat)
    requires width >= 1 && n < Pow10(width)
    ensures ParseDigits(Padded(n, width)) == Some(n) && AllDigits(Padded(n, width))
  {
    var s := Padded(n, width);
    assert s[..|s| - 1] == Padded(n / 10, width - 1) && s[|s| - 1] == Digit(n % 10);
    assert Pow10(width) == 10 * Pow10(width - 1);
    if width > 1 {
      PaddedParses(n / 10, width - 1);
    } else {
      assert Pow10(0) == 1 && n / 10 == 0;
    }
  }

  lemma IsoDateFields(year: string, month: string, day: string)
    requires |year| == 4 && |month| == 2 && |day| == 2
    ensures
      var s := year + ['-'] + month + ['-'] + day;
      s[..4] == year && s[4] == '-' && s[5..7] == month && s[7] == '-' && s[8..] == day
  {
  }

  lemma IsoDateParses(d: Date)
    requires IsDate(d)
    ensures ParseIsoDate(IsoDate(d)) == Some(d) && '_' !in IsoDate(d)
  {
    assert Pow10(4) == 10000 && Pow10(2) == 100;
    PaddedParses(d.year, 4);
    PaddedParses(d.month, 2);
    PaddedParses(d.day, 2);
    IsoDateFields(Padded(d.year, 4), Padded(d.month, 2), Padded(d.day, 2));
  }

  /** An explicit plus sign is read as none. */
  lemma PlusSignParses(n: nat)
    ensures ParseInt(['+'] + Digits(n)) == Some(n)
  {
    DigitsParse(n);
    assert (['+'] + Digits(n))[1..] == Digits(n);
  }

  // ------------------------------------------------------------ splitting at the separator

  /** `split("_")`. */
  function Split(s: string): (parts: seq<string>)
    ensures parts != []
  {
    if s == [] then [[]]
    else
      var rest := Split(s[1..]);
      if s[0] == '_' then [[]] + rest else [[s[0]] + rest[0]] + rest[1..]
  }

  function Underscores(s: string): nat {
    if s == [] then 0 else (if s[0] == '_' then 1 else 0) + Underscores(s[1..])
  }

  lemma {:induction false} SplitCount(s: string)
    ensures |Split(s)| == Underscores(s) + 1
    ensures Underscores(s) == 0 <==> '_' !in s
  {
    if s != [] {
      SplitCount(s[1..]);
      assert s == [s[0]] + s[1..];
    }
  }

  lemma {:induction false} UnderscoresAppend(a: string, b: string)
    ensures Underscores(a + b) == Underscores(a) + Underscores(b)
  {
    if a == [] {
      assert a + b == b;
    } else {
      assert (a + b)[1..] == a[1..] + b;
      UnderscoresAppend(a[1..], b);
    }
  }

  lemma {:induction false} SplitField(field: string, rest: string)
    requires '_' !in field
    ensures Split(field + ['_'] + rest) == [field] + Split(rest)
    ensures Split(field) == [field]
  {
    var s := field + ['_'] + rest;
    if field == [] {
      assert s[1..] == rest;
    } else {
      assert s[1..] == field[1..] + ['_'] + rest;
      SplitField(field[1..], rest);
      assert field == [field[0]] + field[1..];
    }
  }

  // ------------------------------------------------------------ the flight id

  function Tail(k: FlightKey): string
    requires IsDate(k.date)
  {
    IsoDate(k.date) + ['_'] + (IntString(k.index) + ['_'] + CabinName(k.cabin))
  }

  function Make(k: FlightKey): string
    requires IsDate(k.date)
  {
    "MOCK" + ['_'] + (k.origin + ['_'] + (k.destination + ['_'] + Tail(k)))
  }

  function Parse(id: string): (r: Option<FlightKey>)
    ensures r.Some? ==> IsDate(r.value.date)
  {
    var parts := Split(id);
    if |parts| != 6 || parts[0] != "MOCK" then None
    else
      match (ParseIsoDate(parts[3]), ParseInt(parts[4]), ParseCabin(parts[5]))
      case (Some(date), Some(index), Some(cabin)) => Some(FlightKey(parts[1], parts[2], date, index, cabin))
      case _ => None
  }

  lemma CabinParses(c: Cabin)
    ensures ParseCabin(CabinName(c)) == Some(c)
  {
    assert |"economy"| == |"charter"| == 7 && |"premium_economy"| == 15 && |"business"| == 8 && |"first"| == 5;
    assert "economy"[0] != "charter"[0];
  }

  lemma OneSeparator(a: string, b: string)
    requires '_' !in a && '_' !in b
    ensures Underscores(a + ['_'] + b) == 1
  {
    SplitCount(a);
    SplitCount(b);
    UnderscoresAppend(a + ['_'], b);
    UnderscoresAppend(a, ['_']);
    assert Underscores(['_']) == 1 by { assert ['_'][1..] == []; }
  }

  /** Premium economy is the one cabin whose name holds the separator. */
  lemma CabinSeparators(c: Cabin)
    ensures Underscores(CabinName(c)) == if c.PremiumEconomy? then 1 else 0
    ensures '_' in CabinName(c) <==> c.PremiumEconomy?
  {
    var name := CabinName(c);
    if c.PremiumEconomy? {
      assert name == "premium" + ['_'] + "economy" && name[7] == '_';
      OneSeparator("premium", "economy");
    } else {
      assert '_' !in name;
      SplitCount(name);
    }
  }

  lemma TailSplits(k: FlightKey)
    requires IsDate(k.date) && !k.cabin.PremiumEconomy?
    ensures Split(Tail(k)) == [IsoDate(k.date), IntString(k.index), CabinName(k.cabin)]
  {
    IsoDateParses(k.date);
    IntParses(k.index);
    CabinSeparators(k.cabin);
    var name := CabinName(k.cabin);
    SplitField(name, []);
    SplitField(IntString(k.index), name);
    SplitField(IsoDate(k.date), IntString(k.index) + ['_'] + name);
  }

  lemma MakeSplits(k: FlightKey)
    requires IsDate(k.date) && '_' !in k.origin && '_' !in k.destination && !k.cabin.PremiumEconomy?
    ensures Split(Make(k)) == ["MOCK", k.origin, k.destination, IsoDate(k.date), IntString(k.index), CabinName(k.cabin)]
  {
    TailSplits(k);
    var tail := Tail(k);
    SplitField(k.destination, tail);
    SplitField(k.origin, k.destination + ['_'] + tail);
    SplitField("MOCK", k.origin + ['_'] + (k.destination + ['_'] + tail));
  }

  lemma RoundTrips(k: FlightKey)
    requires IsDate(k.date) && '_' !in k.origin && '_' !in k.destination && !k.cabin.PremiumEconomy?
    ensures Parse(Make(k)) == Some(k)
  {
    MakeSplits(k);
    IsoDateParses(k.date);
    IntParses(k.index);
    CabinParses(k.cabin);
  }

  lemma UnderscoresInMake(k: FlightKey)
    requires IsDate(k.date)
    ensures Underscores(Make(k)) ==
        5 + Underscores(k.origin) + Underscores(k.destination) + (if k.cabin.PremiumEconomy? then 1 else 0)
  {
    IsoDateParses(k.date);
    IntParses(k.index);
    CabinSeparators(k.cabin);
    SplitCount(IsoDate(k.date));
    SplitCount(IntString(k.index));
    SplitCount("MOCK");
    assert Underscores(['_']) == 1 by { assert ['_'][1..] == []; }
    var last := IntString(k.index) + ['_'] + CabinName(k.cabin);
    UnderscoresAppend(IntString(k.index) + ['_'], CabinName(k.cabin));
    UnderscoresAppend(IntString(k.index), ['_']);
    UnderscoresAppend(IsoDate(k.date) + ['_'], last);
    UnderscoresAppend(IsoDate(k.date), ['_']);
    UnderscoresAppend(k.destination + ['_'], Tail(k));
    UnderscoresAppend(k.destination, ['_']);
    var rest := k.destination + ['_'] + Tail(k);
    UnderscoresAppend(k.origin + ['_'], rest);
    UnderscoresAppend(k.origin, ['_']);
    UnderscoresAppend("MOCK" + ['_'], k.origin + ['_'] + rest);
    UnderscoresAppend("MOCK", ['_']);
  }

  /** A printed flight id parses back to what was printed exactly when neither airport code
      holds the separator and the cabin is not premium economy; otherwise it does not parse. */
  lemma RoundTripsExactlyWhen(k: FlightKey)
    requires IsDate(k.date)
    ensures Parse(Make(k)) ==
        (if '_' !in k.origin && '_' !in k.destination && !k.cabin.PremiumEconomy? then Some(k) else None)
  {
    if '_' !in k.origin && '_' !in k.destination && !k.cabin.PremiumEconomy? {
      RoundTrips(k);
    } else {
      UnderscoresInMake(k);
      SplitCount(Make(k));
      SplitCount(k.origin);
      SplitCount(k.destination);
    }
  }

  const SAMPLE_DATE := Date(2026, 8, 9)

  /** How an id looks. */
  lemma PrintedId(c: Cabin)
    ensures Make(FlightKey("JFK", "LAX", SAMPLE_DATE, 3, c)) == "MOCK_JFK_LAX_2026-08-09_3_" + PrintedCabin(c)
  {
    PrintedDate();
    PrintedNumbers();
    AroundTheTail(IsoDate(SAMPLE_DATE), IntString(3), CabinName(c));
  }

  function PrintedCabin(c: Cabin): string {
    if c.Economy? then "economy"
    else if c.PremiumEconomy? then "premium_economy"
    else if c.Business? then "business"
    else if c.First? then "first"
    else "charter"
  }

  lemma AroundTheTail(date: string, index: string, cabin: string)
    requires date == "2026-08-09" && index == "3"
    ensures "MOCK" + ['_'] + ("JFK" + ['_'] + ("LAX" + ['_'] + (date + ['_'] + (index + ['_'] + cabin)))) ==
            "MOCK_JFK_LAX_2026-08-09_3_" + cabin
  {
    assert index + ['_'] + cabin == "3_" + cabin;
    assert date + ['_'] + ("3_" + cabin) == "2026-08-09_3_" + cabin;
    assert "LAX" + ['_'] + ("2026-08-09_3_" + cabin) == "LAX_2026-08-09_3_" + cabin;
    assert "JFK" + ['_'] + ("LAX_2026-08-09_3_" + cabin) == "JFK_LAX_2026-08-09_3_" + cabin;
  }

  lemma PrintedDate()
    ensures IsDate(SAMPLE_DATE) && IsoDate(SAMPLE_DATE) == "2026-08-09"
  {
    PrintedNumbers();
  }

  lemma PrintedNumbers()
    ensures Padded(2026, 4) == "2026" && Padded(8, 2) == "08" && Padded(9, 2) == "09" && IntString(3) == "3"
  {
    assert Padded(2, 1) == "2" by { assert Padded(0, 0) == []; }
    assert Padded(20, 2) == "20";
    assert Padded(202, 3) == "202";
    assert Padded(0, 1) == "0" by { assert Padded(0, 0) == []; }
  }
}
