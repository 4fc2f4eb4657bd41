/**
 Civil dates and day numbers (PermissionSync.cpp, DaysFromCivil and CivilFromDays), for the
 proleptic Gregorian calendar. Day 0 is 1 January 1970.

 Integers are unbounded. The era is the quotient rounded down: the source writes that out for
 operators that truncate, and Dafny's division rounds down already.
 */
module Calendar {
  import opened Numbers

  datatype Date = Date(y: int, m: int, d: int)

  predicate IsLeap(y: int) {
    (y % 4 == 0 && y % 100 != 0) || y % 400 == 0
  }

  function MonthLength(y: int, m: int): int {
    if m == 2 then if IsLeap(y) then 29 else 28
    else if m == 4 || m == 6 || m == 9 || m == 11 then 30
    else 31
  }

  predicate IsDate(c: Date) {
    1 <= c.m <= 12 && 1 <= c.d <= MonthLength(c.y, c.m)
  }

  // The source's truncating division by a positive number, rounded down for a negative one.
  function EraOf(n: int, length: int): int
    requires length > 0
  {
    Truncated(if n >= 0 then n else n - (length - 1), length)
  }

  function Truncated(n: int, d: int): int
    requires d > 0
  {
    if n >= 0 then n / d else -((-n) / d)
  }

  lemma EraRoundsDown(n: int, length: int)
    requires length > 0
    ensures EraOf(n, length) * length <= n < EraOf(n, length) * length + length
  {
    if n < 0 {
      var q := (length - 1 - n) / length;
      assert EraOf(n, length) == -q;
      assert q * length <= length - 1 - n < q * length + length;
    } else {
      var q := n / length;
      assert q * length <= n < q * length + length;
    }
  }

  lemma EraIsUnique(n: int, length: int, era: int)
    requires length > 0 && era * length <= n < era * length + length
    ensures EraOf(n, length) == era
  {
    EraRoundsDown(n, length);
    NextMultiple(EraOf(n, length), era, length);
    NextMultiple(era, EraOf(n, length), length);
  }

  function DayOfYear(m: int, d: int): int {
    (153 * (m + if m > 2 then -3 else 9) + 2) / 5 + d - 1
  }

  function DayOfEra(yoe: int, doy: int): int {
    yoe * 365 + yoe / 4 - yoe / 100 + doy
  }

  function DaysFromCivil(c: Date): int {
    var y := c.y - if c.m <= 2 then 1 else 0;
    var era := EraOf(y, 400);
    era * 146097 + DayOfEra(y - era * 400, DayOfYear(c.m, c.d)) - 719468
  }

  function YearOfEra(doe: int): int {
    (doe - doe / 1460 + doe / 36524 - doe / 146096) / 365
  }

  // The date of day `doy` of the year `year` that runs from March.
  function DateInYear(year: int, doy: int): Date {
    var mp := (5 * doy + 2) / 153;
    var m := if mp < 10 then mp + 3 else mp - 9;
    Date(year + (if m <= 2 then 1 else 0), m, doy - (153 * mp + 2) / 5 + 1)
  }

  function DateInEra(era: int, doe: int): Date {
    var yoe := YearOfEra(doe);
    DateInYear(yoe + era * 400, doe - DayOfEra(yoe, 0))
  }

  function CivilFromDays(days: int): Date {
    var z := days + 719468;
    DateInEra(EraOf(z, 146097), z - EraOf(z, 146097) * 146097)
  }

  // ---------------------------------------------------------------- years of an era

  // Years run from March, so a leap day is the last day of its year.
  predicate LongYear(yoe: int) {
    yoe % 4 == 3 && (yoe % 100 != 99 || yoe == 399)
  }

  function YearDays(yoe: int): int {
    if LongYear(yoe) then 366 else 365
  }

  // A year of the era as a century, a four-year cycle and a year.
  lemma SplitYear(yoe: int)
    requires 0 <= yoe < 400
    ensures var c, q, r := yoe / 100, yoe % 100 / 4, yoe % 4;
            && 0 <= c <= 3 && 0 <= q <= 24 && 0 <= r <= 3
            && yoe == 100 * c + 4 * q + r
            && yoe / 4 == 25 * c + q
            && DayOfEra(yoe, 0) == 36524 * c + 1461 * q + 365 * r
            && (LongYear(yoe) <==> r == 3 && (q != 24 || c == 3))
  {
  }

  lemma YearOfEraInverts(yoe: int, doy: int)
    requires 0 <= yoe < 400 && 0 <= doy < YearDays(yoe)
    ensures YearOfEra(DayOfEra(yoe, doy)) == yoe
    ensures 0 <= DayOfEra(yoe, doy) < 146097
  {
    SplitYear(yoe);
    var c, q, r := yoe / 100, yoe % 100 / 4, yoe % 4;
    var doe := DayOfEra(yoe, doy);
    assert doe == 36524 * c + 1461 * q + 365 * r + doy;
    var last := c == 3 && q == 24 && r == 3 && doy == 365;
    assert doe / 36524 == if last then 4 else c;
    assert doe / 146096 == if last then 1 else 0;
    var u := 24 * c + q + 365 * r + doy;
    assert doe == 1460 * (25 * c + q) + u && 0 <= u < 2920;
    assert doe / 1460 == 25 * c + q + if u >= 1460 then 1 else 0;
    var v := doy - (if u >= 1460 then 1 else 0);
    assert 0 <= v < 365;
    assert doe - doe / 1460 + doe / 36524 - doe / 146096 == 365 * (100 * c + 4 * q + r) + v;
  }

  lemma EveryDayOfEra(doe: int) returns (yoe: int, doy: int)
    requires 0 <= doe < 146097
    ensures 0 <= yoe < 400 && 0 <= doy < YearDays(yoe) && DayOfEra(yoe, doy) == doe
  {
    var c, q, r, rest := CyclesOfEra(doe);
    yoe, doy := 100 * c + 4 * q + r, rest;
    assert yoe / 100 == c && yoe % 100 / 4 == q && yoe % 4 == r;
    SplitYear(yoe);
  }

  // A day of the era as a century, a four-year cycle, a year and a day of that year.
  lemma CyclesOfEra(doe: int) returns (c: int, q: int, r: int, doy: int)
    requires 0 <= doe < 146097
    ensures 0 <= c <= 3 && 0 <= q <= 24 && 0 <= r <= 3
    ensures doe == 36524 * c + 1461 * q + 365 * r + doy
    ensures 0 <= doy < if r == 3 && (q != 24 || c == 3) then 366 else 365
  {
    c := if doe / 36524 > 3 then 3 else doe / 36524;
    var inCentury := doe - 36524 * c;
    q := inCentury / 1461;
    var inCycle := inCentury - 1461 * q;
    r := if inCycle / 365 > 3 then 3 else inCycle / 365;
    doy := inCycle - 365 * r;
  }

  lemma LongYearIsLeap(yoe: int, era: int)
    requires 0 <= yoe < 400
    ensures LongYear(yoe) <==> IsLeap(yoe + era * 400 + 1)
  {
    Periodic(yoe + 1, era, 400);
    Periodic(yoe + 1, 4 * era, 100);
    Periodic(yoe + 1, 100 * era, 4);
    assert yoe + era * 400 + 1 == yoe + 1 + 4 * era * 100 == yoe + 1 + 100 * era * 4 == yoe + 1 + era * 400;
  }

  lemma Periodic(n: int, k: int, period: int)
    requires period > 0
    ensures (n + k * period) % period == n % period
  {
    var q := n / period;
    assert n == q * period + n % period;
    QuotientIs(n + k * period, period, q + k, n % period);
  }

  // ---------------------------------------------------------------- months of a year

  lemma MonthInverts(year: int, doy: int)
    requires 0 <= doy < 366
    ensures var c := DateInYear(year, doy);
            && 1 <= c.m <= 12 && 1 <= c.d <= (if c.m == 2 then 29 else MonthLength(0, c.m))
            && DayOfYear(c.m, c.d) == doy && c.y == year + (if c.m <= 2 then 1 else 0)
            && (c.m == 2 && c.d == 29 <==> doy == 365)
  {
  }

  lemma DayOfYearInverts(year: int, m: int, d: int)
    requires 1 <= m <= 12 && 1 <= d <= if m == 2 then 29 else MonthLength(0, m)
    ensures 0 <= DayOfYear(m, d) < 366 && (DayOfYear(m, d) == 365 <==> m == 2 && d == 29)
    ensures DateInYear(year, DayOfYear(m, d)) == Date(year + (if m <= 2 then 1 else 0), m, d)
  {
    var doy := DayOfYear(m, d);
    assert (5 * doy + 2) / 153 == m + (if m > 2 then -3 else 9);
  }

  // ---------------------------------------------------------------- main results

  // The March-based year a date falls in.
  function MarchYear(c: Date): int {
    c.y - if c.m <= 2 then 1 else 0
  }

  // A date as an era, a year of it, and a day of that year.
  lemma PlaceOfDate(c: Date) returns (era: int, yoe: int, doy: int)
    requires IsDate(c)
    ensures era == EraOf(MarchYear(c), 400) && yoe == MarchYear(c) - era * 400 && doy == DayOfYear(c.m, c.d)
    ensures 0 <= yoe < 400 && 0 <= doy < YearDays(yoe)
    ensures DaysFromCivil(c) == era * 146097 + DayOfEra(yoe, doy) - 719468
    ensures DateInYear(yoe + era * 400, doy) == c
  {
    era := EraOf(MarchYear(c), 400);
    yoe, doy := MarchYear(c) - era * 400, DayOfYear(c.m, c.d);
    EraRoundsDown(MarchYear(c), 400);
    LongYearIsLeap(yoe, era);
    DayOfYearInverts(MarchYear(c), c.m, c.d);
  }

  lemma CivilOfPlace(days: int, era: int, yoe: int, doy: int)
    requires 0 <= yoe < 400 && 0 <= doy < YearDays(yoe) && days == era * 146097 + DayOfEra(yoe, doy) - 719468
    ensures CivilFromDays(days) == DateInYear(yoe + era * 400, doy)
  {
    DateOfDayInEra(era, yoe, doy);
    CivilInEra(days, era, DayOfEra(yoe, doy));
  }

  lemma CivilInEra(days: int, era: int, doe: int)
    requires 0 <= doe < 146097 && days + 719468 == era * 146097 + doe
    ensures CivilFromDays(days) == DateInEra(era, doe)
  {
    EraIsUnique(days + 719468, 146097, era);
    CivilOfEra(days, era, doe);
  }

  lemma CivilOfEra(days: int, era: int, doe: int)
    requires EraOf(days + 719468, 146097) == era && days + 719468 - era * 146097 == doe
    ensures CivilFromDays(days) == DateInEra(era, doe)
  {
  }

  lemma DateOfDayInEra(era: int, yoe: int, doy: int)
    requires 0 <= yoe < 400 && 0 <= doy < YearDays(yoe)
    ensures 0 <= DayOfEra(yoe, doy) < 146097
    ensures DateInEra(era, DayOfEra(yoe, doy)) == DateInYear(yoe + era * 400, doy)
  {
    YearOfEraInverts(yoe, doy);
    DayOfYearLeft(yoe, doy);
  }

  lemma DayOfYearLeft(yoe: int, doy: int)
    ensures DayOfEra(yoe, doy) - DayOfEra(yoe, 0) == doy
  {
  }

  lemma DaysOfPlace(c: Date, era: int, yoe: int, doy: int)
    requires 0 <= yoe < 400 && MarchYear(c) == yoe + era * 400 && DayOfYear(c.m, c.d) == doy
    ensures DaysFromCivil(c) == era * 146097 + DayOfEra(yoe, doy) - 719468
  {
    EraIsUnique(MarchYear(c), 400, era);
  }

  /** Every valid date survives the round trip through its day number. */
  lemma CivilOfDays(c: Date)
    requires IsDate(c)
    ensures CivilFromDays(DaysFromCivil(c)) == c
  {
    var era, yoe, doy := PlaceOfDate(c);
    CivilOfPlace(DaysFromCivil(c), era, yoe, doy);
  }

  /** Every day number survives the round trip, through a valid date. */
  lemma DaysOfCivil(days: int)
    ensures IsDate(CivilFromDays(days)) && DaysFromCivil(CivilFromDays(days)) == days
  {
    var era, yoe, doy := PlaceOfDay(days);
    CivilOfPlace(days, era, yoe, doy);
    DateOfPlaceIsValid(era, yoe, doy);
    DaysOfPlace(DateInYear(yoe + era * 400, doy), era, yoe, doy);
  }

  lemma PlaceOfDay(days: int) returns (era: int, yoe: int, doy: int)
    ensures 0 <= yoe < 400 && 0 <= doy < YearDays(yoe)
    ensures days == era * 146097 + DayOfEra(yoe, doy) - 719468
  {
    era := EraOf(days + 719468, 146097);
    EraRoundsDown(days + 719468, 146097);
    yoe, doy := EveryDayOfEra(days + 719468 - era * 146097);
  }

  lemma DateOfPlaceIsValid(era: int, yoe: int, doy: int)
    requires 0 <= yoe < 400 && 0 <= doy < YearDays(yoe)
    ensures var c := DateInYear(yoe + era * 400, doy);
            IsDate(c) && MarchYear(c) == yoe + era * 400 && DayOfYear(c.m, c.d) == doy
  {
    MonthInverts(yoe + era * 400, doy);
    LongYearIsLeap(yoe, era);
  }

  // The calendar's own successor, written without day numbers.
  function NextDate(c: Date): Date {
    if c.d < MonthLength(c.y, c.m) then Date(c.y, c.m, c.d + 1)
    else if c.m < 12 then Date(c.y, c.m + 1, 1)
    else Date(c.y + 1, 1, 1)
  }

  // Within a March-based year, days follow each other.
  lemma NextInYear(m: int, d: int, y: int)
    requires IsDate(Date(y, m, d))
    ensures d < MonthLength(y, m) ==> DayOfYear(m, d + 1) == DayOfYear(m, d) + 1
    ensures d == MonthLength(y, m) && m != 2 && m < 12 ==> DayOfYear(m + 1, 1) == DayOfYear(m, d) + 1
    ensures d == MonthLength(y, m) && m == 12 ==> DayOfYear(1, 1) == DayOfYear(m, d) + 1
    ensures d == MonthLength(y, m) && m == 2 ==> DayOfYear(m, d) == (if IsLeap(y) then 365 else 364) && DayOfYear(3, 1) == 0
  {
  }

  lemma YearEnds(yoe: int)
    requires 0 <= yoe < 400
    ensures yoe < 399 ==> DayOfEra(yoe + 1, 0) == DayOfEra(yoe, YearDays(yoe) - 1) + 1
    ensures yoe == 399 ==> DayOfEra(yoe, YearDays(yoe) - 1) == 146096
  {
  }

  // From the last day of one March-based year to the first of the next.
  lemma NextYear(c: Date, era: int, yoe: int)
    requires c.m == 2 && c.d == MonthLength(c.y, 2) && 0 <= yoe < 400 && MarchYear(c) == yoe + era * 400
    ensures DaysFromCivil(NextDate(c)) == era * 146097 + DayOfEra(yoe, YearDays(yoe) - 1) + 1 - 719468
    ensures IsLeap(c.y) <==> YearDays(yoe) == 366
  {
    LongYearIsLeap(yoe, era);
    YearEnds(yoe);
    if yoe < 399 {
      DaysOfPlace(NextDate(c), era, yoe + 1, 0);
    } else {
      DaysOfPlace(NextDate(c), era + 1, 0, 0);
    }
  }

  lemma DayZero()
    ensures DaysFromCivil(Date(1970, 1, 1)) == 0
  {
  }

  /** The next calendar day has the next day number; 1 January 1970 is day 0. */
  lemma NextDayIsNextNumber(c: Date)
    requires IsDate(c)
    ensures IsDate(NextDate(c)) && DaysFromCivil(NextDate(c)) == DaysFromCivil(c) + 1
    ensures DaysFromCivil(Date(1970, 1, 1)) == 0
  {
    DayZero();
    var era, yoe, doy := PlaceOfDate(c);
    NextInYear(c.m, c.d, c.y);
    if c.m == 2 && c.d == MonthLength(c.y, 2) {
      NextYear(c, era, yoe);
    } else {
      NextInSameYear(c, era, yoe);
    }
  }

  lemma NextInSameYear(c: Date, era: int, yoe: int)
    requires IsDate(c) && !(c.m == 2 && c.d == MonthLength(c.y, 2))
    requires 0 <= yoe < 400 && MarchYear(c) == yoe + era * 400
    ensures IsDate(NextDate(c))
    ensures DaysFromCivil(NextDate(c)) == era * 146097 + DayOfEra(yoe, DayOfYear(c.m, c.d)) + 1 - 719468
  {
    NextInYear(c.m, c.d, c.y);
    DaysOfPlace(NextDate(c), era, yoe, DayOfYear(c.m, c.d) + 1);
  }

  /** Two dates with one day number are one date. */
  lemma DayNumbersAreUnique(a: Date, b: Date)
    requires IsDate(a) && IsDate(b)
    ensures DaysFromCivil(a) == DaysFromCivil(b) <==> a == b
  {
    CivilOfDays(a);
    CivilOfDays(b);
  }
}
