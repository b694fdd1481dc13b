/** Calendar dates: the day-number conversion and the comparisons of TradingDate. */
module TradingDate {
  datatype Date = Date(year: int, month: int, day: int)

  // ---- The conversion as the code does it --------------------------------------------

  /** Division of C++ integers truncates towards zero. */
  function Div(a: int, b: int): int
    requires b > 0
  {
    if a >= 0 then a / b else -(-a / b)
  }

  const SHIFT := 719468
  const ERA := 146097

  /** Year, month and day as 32-bit integers, before they are stored. */
  function Civil(since: int): Date {
    var days := since + SHIFT;
    var era := Div(if days >= 0 then days else days - 146096, ERA);
    var doe := days - era * ERA;
    var yoe := Div(doe - Div(doe, 1460) + Div(doe, 36524) - Div(doe, 146096), 365);
    var y := yoe + era * 400;
    var doy := doe - (365 * yoe + Div(yoe, 4) - Div(yoe, 100));
    var mp := Div(5 * doy + 2, 153);
    var d := doy - Div(153 * mp + 2, 5) + 1;
    var m := mp + (if mp < 10 then 3 else -9);
    Date(y + (if m <= 2 then 1 else 0), m, d)
  }

  /** What a value becomes in a signed field of 2 * half values. */
  function Narrow(x: int, half: int): int
    requires half > 0
  {
    (x + half) % (2 * half) - half
  }

  /** The stored date: the year has 16 bits, month and day have 8. */
  function FromDaysSinceEpoch(since: int): Date {
    var c := Civil(since);
    Date(Narrow(c.year, 0x8000), Narrow(c.month, 0x80), Narrow(c.day, 0x80))
  }

  // ---- The Gregorian calendar --------------------------------------------------------

  predicate IsLeap(y: int) { y % 4 == 0 && (y % 100 != 0 || y % 400 == 0) }

  function DaysInMonth(y: int, m: int): int {
    if m == 2 then (if IsLeap(y) then 29 else 28)
    else if m in {4, 6, 9, 11} then 30
    else 31
  }

  predicate Valid(d: Date) { 1 <= d.month <= 12 && 1 <= d.day <= DaysInMonth(d.year, d.month) }

  /** The day after. */
  function Next(d: Date): Date {
    if d.day < DaysInMonth(d.year, d.month) then d.(day := d.day + 1)
    else if d.month < 12 then Date(d.year, d.month + 1, 1)
    else Date(d.year + 1, 1, 1)
  }

  // ---- Comparisons -------------------------------------------------------------------

  predicate Less(a: Date, b: Date) {
    if a.year != b.year then a.year < b.year
    else if a.month != b.month then a.month < b.month
    else a.day < b.day
  }

  predicate Equal(a: Date, b: Date) { a.year == b.year && a.month == b.month && a.day == b.day }

  predicate LessEqual(a: Date, b: Date) { Less(a, b) || Equal(a, b) }

  predicate Greater(a: Date, b: Date) { Less(b, a) }

  predicate GreaterEqual(a: Date, b: Date) { LessEqual(b, a) }

  predicate NotEqual(a: Date, b: Date) { !Equal(a, b) }

  // ---- Eras, years from March, and days ----------------------------------------------

  /** A day as an era of 400 years, a year of it from March on, and a day of that year. */
  datatype March = March(era: int, yoe: int, doy: int)

  /** The year from March on ends in February, so its length is that of the next calendar year. */
  predicate LongYear(yoe: int) { (yoe + 1) % 4 == 0 && ((yoe + 1) % 100 != 0 || yoe == 399) }

  predicate GoodMarch(p: March) { 0 <= p.yoe < 400 && 0 <= p.doy <= (if LongYear(p.yoe) then 365 else 364) }

  function DayOfEra(p: March): int { 365 * p.yoe + p.yoe / 4 - p.yoe / 100 + p.doy }

  function Since(p: March): int { p.era * ERA + DayOfEra(p) - SHIFT }

  /** First day of a month of the year from March on. */
  function MonthStart(mp: int): int { (153 * mp + 2) / 5 }

  function DateOf(p: March): Date {
    var mp := (5 * p.doy + 2) / 153;
    var m := mp + (if mp < 10 then 3 else -9);
    Date(p.yoe + p.era * 400 + (if m <= 2 then 1 else 0), m, p.doy - MonthStart(mp) + 1)
  }

  function YearFormula(doe: int): int { (doe - doe / 1460 + doe / 36524 - doe / 146096) / 365 }

  /** A year of the era as centuries, leap cycles and years, and its day as a day number. */
  lemma {:induction false} YearParts(p: March) returns (k: int, h: int, j: int)
    requires GoodMarch(p)
    ensures p.yoe == 100 * k + 4 * h + j && 0 <= k <= 3 && 0 <= h <= 24 && 0 <= j <= 3
    ensures DayOfEra(p) == 36524 * k + 1461 * h + 365 * j + p.doy
    ensures p.doy == 365 ==> j == 3 && (h < 24 || k == 3)
  {
    k, h, j := p.yoe / 100, p.yoe % 100 / 4, p.yoe % 4;
  }

  lemma {:induction false} YearFormulaOf(k: int, h: int, j: int, doy: int)
    requires 0 <= k <= 3 && 0 <= h <= 24 && 0 <= j <= 3 && 0 <= doy <= 365
    requires doy == 365 ==> j == 3 && (h < 24 || k == 3)
    ensures var doe := 36524 * k + 1461 * h + 365 * j + doy;
            0 <= doe < ERA && YearFormula(doe) == 100 * k + 4 * h + j
  {
    var doe := 36524 * k + 1461 * h + 365 * j + doy;
    var r := 24 * k + h + 365 * j + doy;
    var late := if r >= 1460 then 1 else 0;
    assert doe == 1460 * (25 * k + h) + r && 0 <= r < 2920;
    assert doe / 1460 == 25 * k + h + late;
    assert doe / 36524 - doe / 146096 == k;
  }

  lemma {:induction false} YearFormulaExact(p: March)
    requires GoodMarch(p)
    ensures 0 <= DayOfEra(p) < ERA && YearFormula(DayOfEra(p)) == p.yoe
  {
    hide YearFormula, DayOfEra;
    var k, h, j := YearParts(p);
    YearFormulaOf(k, h, j, p.doy);
  }

  /** Every day of an era has its year and day. */
  lemma {:induction false} Decompose(era: int, doe: int) returns (p: March)
    requires 0 <= doe < ERA
    ensures GoodMarch(p) && p.era == era && DayOfEra(p) == doe
  {
    var k := if doe == 146096 then 3 else doe / 36524;
    var r := doe - 36524 * k;
    var h := r / 1461;
    var s := r - 1461 * h;
    var j := if s == 1460 then 3 else s / 365;
    assert 0 <= k <= 3 && 0 <= h <= 24 && 0 <= j <= 3;
    p := March(era, 100 * k + 4 * h + j, s - 365 * j);
    assert p.yoe / 100 == k && p.yoe / 4 == 25 * k + h;
  }

  lemma {:induction false} EraIs(era: int, doe: int)
    requires 0 <= doe < ERA
    ensures var days := era * ERA + doe; Div(if days >= 0 then days else days - 146096, ERA) == era
  {
  }

  /** The code finds the era, the year and the day. */
  lemma {:induction false} CivilIs(p: March)
    requires GoodMarch(p)
    ensures Civil(Since(p)) == DateOf(p)
  {
    YearFormulaExact(p);
    EraIs(p.era, DayOfEra(p));
    CivilSteps(Since(p) + SHIFT, p.era, DayOfEra(p), p.yoe);
  }

  lemma {:induction false} CivilSteps(days: int, era: int, doe: int, yoe: int)
    requires days == era * ERA + doe && 0 <= doe < ERA && YearFormula(doe) == yoe && 0 <= yoe < 400
    requires Div(if days >= 0 then days else days - 146096, ERA) == era
    requires doe >= 365 * yoe + yoe / 4 - yoe / 100
    ensures Civil(days - SHIFT) == DateOf(March(era, yoe, doe - (365 * yoe + yoe / 4 - yoe / 100)))
  {
    assert Div(doe - Div(doe, 1460) + Div(doe, 36524) - Div(doe, 146096), 365) == YearFormula(doe);
  }

  lemma {:induction false} MarchOf(n: int) returns (p: March)
    ensures GoodMarch(p) && Since(p) == n && Civil(n) == DateOf(p)
  {
    var days := n + SHIFT;
    p := Decompose(days / ERA, days % ERA);
    CivilIs(p);
  }

  // ---- Day by day --------------------------------------------------------------------

  lemma {:induction false} LongIsLeap(era: int, yoe: int)
    requires 0 <= yoe < 400
    ensures LongYear(yoe) <==> IsLeap(yoe + era * 400 + 1)
  {
    Shift4(yoe + 1, 100 * era);
    Shift100(yoe + 1, 4 * era);
    Shift400(yoe + 1, era);
  }

  lemma {:induction false} Shift4(x: int, k: int)
    ensures (x + 4 * k) % 4 == x % 4
  {
  }

  lemma {:induction false} Shift100(x: int, k: int)
    ensures (x + 100 * k) % 100 == x % 100
  {
  }

  lemma {:induction false} Shift400(x: int, k: int)
    ensures (x + 400 * k) % 400 == x % 400
  {
  }

  lemma {:induction false} MonthOf(doy: int) returns (mp: int)
    requires 0 <= doy <= 365
    ensures mp == (5 * doy + 2) / 153 && 0 <= mp <= 11 && MonthStart(mp) <= doy < MonthStart(mp + 1)
  {
    mp := (5 * doy + 2) / 153;
  }

  lemma {:induction false} DateValid(p: March)
    requires GoodMarch(p)
    ensures Valid(DateOf(p))
  {
    hide IsLeap;
    LongIsLeap(p.era, p.yoe);
    var mp := MonthOf(p.doy);
  }

  /** The day after, as era, year and day. */
  function Following(p: March): March {
    if p.doy < (if LongYear(p.yoe) then 365 else 364) then p.(doy := p.doy + 1)
    else if p.yoe < 399 then March(p.era, p.yoe + 1, 0)
    else March(p.era + 1, 0, 0)
  }

  lemma {:induction false} FollowingIs(p: March)
    requires GoodMarch(p)
    ensures GoodMarch(Following(p)) && Since(Following(p)) == Since(p) + 1
  {
    if p.yoe < 399 { YearLength(p.yoe); }
  }

  lemma {:induction false} YearLength(yoe: int)
    requires 0 <= yoe < 399
    ensures (yoe + 1) / 4 - (yoe + 1) / 100 == yoe / 4 - yoe / 100 + (if LongYear(yoe) then 1 else 0)
  {
    assert (yoe + 1) / 4 == yoe / 4 + (if (yoe + 1) % 4 == 0 then 1 else 0);
    assert (yoe + 1) / 100 == yoe / 100 + (if (yoe + 1) % 100 == 0 then 1 else 0);
  }

  lemma {:induction false} MonthLength(mp: int, m: int, y: int)
    requires 0 <= mp < 11 && m == mp + (if mp < 10 then 3 else -9)
    ensures DaysInMonth(y, m) == MonthStart(mp + 1) - MonthStart(mp)
  {
  }

  lemma {:induction false} NextDayOfYear(p: March)
    requires GoodMarch(p) && GoodMarch(p.(doy := p.doy + 1))
    ensures DateOf(p.(doy := p.doy + 1)) == Next(DateOf(p))
  {
    hide IsLeap, DateOf;
    LongIsLeap(p.era, p.yoe);
    hide LongYear;
    var mp := MonthOf(p.doy);
    var after := MonthOf(p.doy + 1);
    InMonth(p, mp);
    InMonth(p.(doy := p.doy + 1), after);
    if mp < 11 {
      MonthLength(mp, DateOf(p).month, DateOf(p).year);
      hide DaysInMonth;
      assert after == if p.doy + 1 < MonthStart(mp + 1) then mp else mp + 1;
    }
  }

  lemma {:induction false} InMonth(p: March, mp: int)
    requires mp == (5 * p.doy + 2) / 153 && 0 <= mp <= 11
    ensures DateOf(p) == Date(p.yoe + p.era * 400 + (if mp < 10 then 0 else 1), mp + (if mp < 10 then 3 else -9),
                              p.doy - MonthStart(mp) + 1)
  {
  }

  lemma {:induction false} NextYear(p: March, era: int, yoe: int)
    requires GoodMarch(p) && p.doy == (if LongYear(p.yoe) then 365 else 364)
        && era * 400 + yoe == p.era * 400 + p.yoe + 1
    ensures DateOf(March(era, yoe, 0)) == Next(DateOf(p))
  {
    hide IsLeap;
    LongIsLeap(p.era, p.yoe);
    var mp := MonthOf(p.doy);
    hide LongYear;
    assert mp == 11;
  }

  lemma {:induction false} FollowingDate(p: March)
    requires GoodMarch(p)
    ensures DateOf(Following(p)) == Next(DateOf(p))
  {
    hide DateOf, Next, LongYear;
    if p.doy < (if LongYear(p.yoe) then 365 else 364) {
      NextDayOfYear(p);
    } else {
      NextYear(p, Following(p).era, Following(p).yoe);
    }
  }

  // ---- What the conversion means ------------------------------------------------------

  lemma {:induction false} Epoch()
    ensures Civil(0) == Date(1970, 1, 1)
  {
    CivilIs(March(4, 369, 306));
  }

  /** The date of the next day is the Gregorian day after. */
  lemma {:induction false} Successor(n: int)
    ensures Valid(Civil(n)) && Civil(n + 1) == Next(Civil(n))
  {
    hide Civil, DateOf, Next, Valid;
    var p := MarchOf(n);
    DateValid(p);
    FollowingIs(p);
    FollowingDate(p);
    CivilIs(Following(p));
  }

  lemma {:induction false} NextIsLater(d: Date)
    requires Valid(d)
    ensures Less(d, Next(d))
  {
  }

  lemma {:induction false} LessTransitive(a: Date, b: Date, c: Date)
    requires Less(a, b) && Less(b, c)
    ensures Less(a, c)
  {
  }

  lemma {:induction false} Increasing(a: int, b: int)
    requires a < b
    ensures Less(Civil(a), Civil(b))
    decreases b - a
  {
    hide Civil, Less, Next;
    Successor(b - 1);
    NextIsLater(Civil(b - 1));
    if a < b - 1 {
      Increasing(a, b - 1);
      LessTransitive(Civil(a), Civil(b - 1), Civil(b));
    }
  }

  /** The day number of a date. */
  function DayNumber(d: Date): int { Since(MarchDate(d)) }

  function MarchDate(d: Date): March {
    var y := if d.month <= 2 then d.year - 1 else d.year;
    var mp := if d.month > 2 then d.month - 3 else d.month + 9;
    March(y / 400, y % 400, MonthStart(mp) + d.day - 1)
  }

  lemma {:induction false} MarchDateIs(d: Date)
    requires Valid(d)
    ensures GoodMarch(MarchDate(d)) && DateOf(MarchDate(d)) == d
  {
    hide IsLeap;
    var p := MarchDate(d);
    LongIsLeap(p.era, p.yoe);
    hide LongYear;
    assert p.yoe + p.era * 400 == if d.month <= 2 then d.year - 1 else d.year;
  }

  /** One to one and onto the valid dates: DayNumber is the inverse. */
  lemma {:induction false} Bijection(d: Date, n: int)
    ensures Valid(Civil(n)) && DayNumber(Civil(n)) == n
    ensures Valid(d) ==> Civil(DayNumber(d)) == d
  {
    hide Civil, MarchDate, DateOf, Valid, Since, Less;
    if Valid(d) {
      MarchDateIs(d);
      CivilIs(MarchDate(d));
    }
    Successor(n);
    var c := Civil(n);
    MarchDateIs(c);
    CivilIs(MarchDate(c));
    SameDay(DayNumber(c), n);
  }

  lemma {:induction false} SameDay(a: int, b: int)
    requires Civil(a) == Civil(b)
    ensures a == b
  {
    hide Civil;
    if a < b { Increasing(a, b); } else if b < a { Increasing(b, a); }
  }

  /** The comparison operators compare day numbers. */
  lemma {:induction false} OperatorsCompareDays(a: Date, b: Date)
    requires Valid(a) && Valid(b)
    ensures Less(a, b) <==> DayNumber(a) < DayNumber(b)
    ensures LessEqual(a, b) <==> DayNumber(a) <= DayNumber(b)
    ensures Greater(a, b) <==> DayNumber(a) > DayNumber(b)
    ensures GreaterEqual(a, b) <==> DayNumber(a) >= DayNumber(b)
    ensures Equal(a, b) <==> DayNumber(a) == DayNumber(b)
    ensures NotEqual(a, b) <==> DayNumber(a) != DayNumber(b)
  {
    hide Civil, DayNumber, Valid;
    Bijection(a, 0);
    Bijection(b, 0);
    if DayNumber(a) < DayNumber(b) {
      Increasing(DayNumber(a), DayNumber(b));
    } else if DayNumber(b) < DayNumber(a) {
      Increasing(DayNumber(b), DayNumber(a));
    }
  }

  const FIRST_DAY := -12687794
  const LAST_DAY := 11248737

  /** The stored date is the civil date exactly on the days from -32768-01-01 to 32767-12-31,
      whose years fit 16 bits. */
  lemma {:induction false} StoredExactly(n: int)
    ensures FromDaysSinceEpoch(n) == Civil(n) <==> FIRST_DAY <= n <= LAST_DAY
  {
    hide Civil, Less;
    Successor(n);
    Ends();
    NarrowIs(Civil(n).year, 0x8000);
    NarrowIs(Civil(n).month, 0x80);
    NarrowIs(Civil(n).day, 0x80);
    YearOrder(FIRST_DAY - 1, n);
    YearOrder(FIRST_DAY, n);
    YearOrder(n, LAST_DAY);
    YearOrder(n, LAST_DAY + 1);
    YearOrder(LAST_DAY + 1, n);
    YearOrder(n, FIRST_DAY - 1);
  }

  lemma {:induction false} NarrowIs(x: int, half: int)
    requires half == 0x8000 || half == 0x80
    ensures Narrow(x, half) == x <==> -half <= x < half
  {
    if half == 0x80 {
      assert Narrow(x, half) == (x + 0x80) % 0x100 - 0x80;
    } else {
      assert Narrow(x, half) == (x + 0x8000) % 0x10000 - 0x8000;
    }
  }

  lemma {:induction false} YearOrder(a: int, b: int)
    requires a <= b || a > b
    ensures a <= b ==> Civil(a).year <= Civil(b).year
  {
    hide Civil;
    if a < b { Increasing(a, b); }
  }

  lemma {:induction false} Ends()
    ensures Civil(FIRST_DAY) == Date(-0x8000, 1, 1) && Civil(LAST_DAY) == Date(0x7fff, 12, 31)
    ensures Civil(FIRST_DAY - 1).year == -0x8001 && Civil(LAST_DAY + 1).year == 0x8000
  {
    hide Civil;
    FirstDay();
    Bijection(Date(0x7fff, 12, 31), 0);
    Successor(LAST_DAY);
  }

  lemma {:induction false} FirstDay()
    ensures Civil(FIRST_DAY) == Date(-0x8000, 1, 1) && Civil(FIRST_DAY - 1).year == -0x8001
  {
    FirstDate();
    DayBefore();
  }

  lemma {:induction false} FirstDate()
    ensures Civil(FIRST_DAY) == Date(-0x8000, 1, 1)
  {
    hide Civil;
    Bijection(Date(-0x8000, 1, 1), 0);
  }

  lemma {:induction false} DayBefore()
    ensures Civil(FIRST_DAY - 1).year == -0x8001
  {
    hide Civil;
    Bijection(Date(-0x8001, 12, 31), 0);
  }
}
