/** Days since 1970-01-01 and proleptic Gregorian dates. */
module Civil {
  datatype Date = Date(year: int, month: int, day: int)

  predicate Leap(y: int) { (y % 4 == 0 && y % 100 != 0) || y % 400 == 0 }

  function DaysInMonth(y: int, m: int): int
    requires 1 <= m <= 12
  {
    if m == 2 then (if Leap(y) then 29 else 28) else if m == 4 || m == 6 || m == 9 || m == 11 then 30 else 31
  }

  predicate ValidDate(x: Date) { 1 <= x.month <= 12 && 1 <= x.day <= DaysInMonth(x.year, x.month) }

  /** Year of the era, from the day of the era (years start on March 1). */
  function YearOfEra(doe: int): int { (doe - doe / 1460 + doe / 36524 - doe / 146096) / 365 }

  /** Days before March-based year `yoe` of an era. */
  function YearStart(yoe: int): int { 365 * yoe + yoe / 4 - yoe / 100 }

  function DayOfYear(doe: int, yoe: int): int { doe - YearStart(yoe) }

  function MonthOf(mp: int): int { if mp < 10 then mp + 3 else mp - 9 }

  /** The calendar date of day `doy` of March-based year `yoe` of an era. */
  function DateOf(era: int, yoe: int, doy: int): Date {
    var mp := (5 * doy + 2) / 153;
    var m := MonthOf(mp);
    Date(yoe + era * 400 + (if m <= 2 then 1 else 0), m, doy - (153 * mp + 2) / 5 + 1)
  }

  function CivilFromDays(days: int): Date {
    var z := days + 719468;
    var era := z / 146097;
    DateInEra(YearOfEra, era, z - era * 146097)
  }

  /** The date of day `doe` of an era, given how to find its year. */
  function DateInEra(year: int -> int, era: int, doe: int): Date {
    var yoe := year(doe);
    DateOf(era, yoe, DayOfYear(doe, yoe))
  }

  function DaysBack(y: int, mp: int, day: int): int {
    var era := y / 400;
    var yoe := y - era * 400;
    var doy := (153 * mp + 2) / 5 + day - 1;
    era * 146097 + (YearStart(yoe) + doy) - 719468
  }

  function DaysFromCivil(x: Date): int {
    DaysBack(if x.month <= 2 then x.year - 1 else x.year, (x.month + 9) % 12, x.day)
  }

  // The day of an era, cut into centuries, four-year cycles and years.

  /** Day `s` of four-year cycle `q` of century `c`; only the last century has a full last cycle. */
  predicate Parts(doe: int, c: int, q: int, s: int) {
    0 <= c <= 3 && 0 <= q <= 24 && 0 <= s <= 1460 && (q == 24 && s == 1460 ==> c == 3) &&
    doe == 36524 * c + 1461 * q + s
  }

  lemma PartsExist(doe: int) returns (c: int, q: int, s: int)
    requires 0 <= doe <= 146096
    ensures Parts(doe, c, q, s)
  {
    c := if doe == 146096 then 3 else doe / 36524;
    var r := doe - 36524 * c;
    assert 0 <= r <= 36524;
    q := r / 1461;
    s := r - 1461 * q;
  }

  function YearIn(s: int): int { if s >= 1095 then 3 else s / 365 }

  lemma Over1460(doe: int, c: int, q: int, s: int)
    requires Parts(doe, c, q, s)
    ensures doe / 1460 == 25 * c + q + if 24 * c + q + s >= 1460 then 1 else 0
  {
    var k := 25 * c + q + if 24 * c + q + s >= 1460 then 1 else 0;
    assert 1460 * k <= doe < 1460 * (k + 1);
  }

  lemma Over36524(doe: int, c: int, q: int, s: int)
    requires Parts(doe, c, q, s)
    ensures doe / 36524 - doe / 146096 == c
  {
    if doe < 146096 { assert 36524 * c <= doe < 36524 * (c + 1); }
  }

  lemma YearOfEraIs(doe: int, c: int, q: int, s: int)
    requires Parts(doe, c, q, s)
    ensures YearOfEra(doe) == 100 * c + 4 * q + YearIn(s)
  {
    Over1460(doe, c, q, s);
    Over36524(doe, c, q, s);
    var e := if 24 * c + q + s >= 1460 then 1 else 0;
    var n := 36500 * c + 1460 * q + s - e;
    assert doe - doe / 1460 + doe / 36524 - doe / 146096 == n;
    YearOver365(n, c, q, s, e);
  }

  lemma YearOver365(n: int, c: int, q: int, s: int, e: int)
    requires 0 <= c <= 3 && 0 <= q <= 24 && 0 <= s <= 1460 && n == 36500 * c + 1460 * q + s - e
    requires e == if 24 * c + q + s >= 1460 then 1 else 0
    ensures n / 365 == 100 * c + 4 * q + YearIn(s)
  {
    var t := YearIn(s);
    assert 365 * t <= s - e < 365 * (t + 1);
    var k := 100 * c + 4 * q + t;
    assert 365 * k <= n < 365 * (k + 1);
  }

  lemma YearStartIs(c: int, q: int, t: int)
    requires 0 <= c <= 3 && 0 <= q <= 24 && 0 <= t <= 3
    ensures YearStart(100 * c + 4 * q + t) == 36524 * c + 1461 * q + 365 * t
  {
    var yoe := 100 * c + 4 * q + t;
    assert yoe / 4 == 25 * c + q;
    assert yoe / 100 == c;
  }

  /** `year` finds the March-based year of the day, whose last day only leap years have. */
  predicate FindsYear(year: int -> int, era: int, doe: int) {
    var yoe := year(doe);
    var doy := DayOfYear(doe, yoe);
    0 <= yoe <= 399 && 0 <= doy <= 365 && (doy == 365 ==> Leap(yoe + era * 400 + 1))
  }

  lemma PartsFind(year: int -> int, era: int, doe: int, c: int, q: int, s: int)
    requires Parts(doe, c, q, s) && year(doe) == 100 * c + 4 * q + YearIn(s)
    ensures FindsYear(year, era, doe)
  {
    YearStartIs(c, q, YearIn(s));
    if s == 1460 { LeapEnd(c, q, era); }
  }

  lemma YearOfEraFinds(era: int, doe: int)
    requires 0 <= doe <= 146096
    ensures FindsYear(YearOfEra, era, doe)
  {
    var c, q, s := PartsExist(doe);
    YearOfEraIs(doe, c, q, s);
    PartsFind(YearOfEra, era, doe, c, q, s);
  }

  lemma LeapEnd(c: int, q: int, era: int)
    requires 0 <= c <= 3 && 0 <= q <= 24 && (q == 24 ==> c == 3)
    ensures Leap(100 * c + 4 * q + 3 + era * 400 + 1)
  {
    var y := 100 * c + 4 * q + 4 + era * 400;
    assert y == 4 * (25 * c + q + 1 + 100 * era);
    if q == 24 {
      assert y == 400 * (era + 1);
    } else {
      assert y == 100 * (c + 4 * era) + (4 * q + 4);
    }
  }

  // Months.

  lemma MonthShape(doy: int)
    requires 0 <= doy <= 365
    ensures var mp := (5 * doy + 2) / 153;
            && 0 <= mp <= 11
            && (153 * mp + 2) / 5 <= doy
            && doy < (153 * (mp + 1) + 2) / 5
  {
    var mp := (5 * doy + 2) / 153;
    assert 153 * mp <= 5 * doy + 2 < 153 * (mp + 1);
  }

  lemma MonthLength(y: int, mp: int, doy: int)
    requires 0 <= mp <= 11 && (153 * mp + 2) / 5 <= doy < (153 * (mp + 1) + 2) / 5 && 0 <= doy <= 365
    requires doy == 365 ==> Leap(y + 1)
    ensures var m := MonthOf(mp);
            1 <= m <= 12 && 1 <= doy - (153 * mp + 2) / 5 + 1 <= DaysInMonth(y + (if m <= 2 then 1 else 0), m)
  {
  }

  lemma EraOf(yoe: int, era: int)
    requires 0 <= yoe <= 399
    ensures (yoe + era * 400) / 400 == era
  {
  }

  lemma MonthBack(mp: int)
    requires 0 <= mp <= 11
    ensures (MonthOf(mp) + 9) % 12 == mp && (MonthOf(mp) <= 2 <==> mp >= 10)
  {
  }

  lemma DateBack(era: int, yoe: int, doy: int)
    requires 0 <= yoe <= 399 && 0 <= doy <= 365
    ensures DaysFromCivil(DateOf(era, yoe, doy)) == era * 146097 + (YearStart(yoe) + doy) - 719468
  {
    MonthShape(doy);
    var mp := (5 * doy + 2) / 153;
    MonthBack(mp);
    EraOf(yoe, era);
  }

  lemma DateValid(era: int, yoe: int, doy: int)
    requires 0 <= doy <= 365 && (doy == 365 ==> Leap(yoe + era * 400 + 1))
    ensures ValidDate(DateOf(era, yoe, doy))
  {
    MonthShape(doy);
    MonthLength(yoe + era * 400, (5 * doy + 2) / 153, doy);
  }

  /** The date is valid and counts back to the same day. */
  predicate Sound(x: Date, days: int) { ValidDate(x) && DaysFromCivil(x) == days }

  lemma YearBack(year: int -> int, era: int, doe: int)
    requires FindsYear(year, era, doe)
    ensures Sound(DateInEra(year, era, doe), era * 146097 + doe - 719468)
  {
    var yoe := year(doe);
    var doy := DayOfYear(doe, yoe);
    DateValid(era, yoe, doy);
    DateBack(era, yoe, doy);
  }

  lemma EraBack(era: int, doe: int)
    requires 0 <= doe <= 146096
    ensures Sound(DateInEra(YearOfEra, era, doe), era * 146097 + doe - 719468)
  {
    YearOfEraFinds(era, doe);
    YearBack(YearOfEra, era, doe);
  }

  /** Every day number is a valid calendar date, and converting back returns it. */
  lemma CivilRoundTrip(days: int)
    ensures ValidDate(CivilFromDays(days)) && DaysFromCivil(CivilFromDays(days)) == days
  {
    var z := days + 719468;
    EraBack(z / 146097, z - z / 146097 * 146097);
  }

  /** January and February, the tail of a March-based year, count to the next calendar year. */
  lemma YearFrom(doy: int)
    requires 0 <= doy <= 365
    ensures MonthOf((5 * doy + 2) / 153) <= 2 <==> doy >= 306
  {
    MonthShape(doy);
  }

  lemma LastYear(doe: int, yoe: int)
    requires 0 <= doe <= 146096 && 0 <= yoe <= 399 && 0 <= DayOfYear(doe, yoe) <= 365
    ensures yoe == 399 && DayOfYear(doe, yoe) >= 306 <==> doe >= 146037
  {
  }

  /** The calendar years 0 to 9999 are exactly these days. */
  lemma FourDigitYears(days: int)
    ensures 0 <= CivilFromDays(days).year <= 9999 <==> -719528 <= days <= 2932896
  {
    var z := days + 719468;
    var era, doe := z / 146097, z - z / 146097 * 146097;
    YearOfEraFinds(era, doe);
    EraYears(YearOfEra, era, doe);
  }

  lemma EraYears(year: int -> int, era: int, doe: int)
    requires 0 <= doe <= 146096 && FindsYear(year, era, doe)
    ensures 0 <= DateInEra(year, era, doe).year <= 9999 <==> -60 <= era * 146097 + doe <= 3652364
  {
    var yoe := year(doe);
    YearFrom(DayOfYear(doe, yoe));
    LastYear(doe, yoe);
  }
}
