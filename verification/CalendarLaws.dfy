/** What the calendar and clock arithmetic mean: day numbers step with the calendar from 1970-01-01, fractions are
    milliseconds, and an offset is how far the written time is ahead. */
module CalendarLaws {
  import opened Civil
  import opened Iso8601
  import opened Prelude

  /** The day after. */
  function NextDay(x: Date): Date
    requires 1 <= x.month <= 12
  {
    if x.day < DaysInMonth(x.year, x.month) then x.(day := x.day + 1)
    else if x.month < 12 then Date(x.year, x.month + 1, 1)
    else Date(x.year + 1, 1, 1)
  }

  lemma YearStep(yoe: int)
    requires 0 <= yoe < 399
    ensures YearStart(yoe + 1) - YearStart(yoe) == if Leap(yoe + 1) then 366 else 365
  {
  }

  lemma Mod4(y: int, k: int)
    ensures (y + 4 * k) % 4 == y % 4
  {
  }

  lemma Mod100(y: int, k: int)
    ensures (y + 100 * k) % 100 == y % 100
  {
  }

  lemma Mod400(y: int, k: int)
    ensures (y + 400 * k) % 400 == y % 400
  {
  }

  lemma LeapRepeats(y: int, era: int)
    ensures Leap(y + era * 400) <==> Leap(y)
  {
    Mod4(y, 100 * era);
    Mod100(y, 4 * era);
    Mod400(y, era);
  }

  /** A year from March to March is as long as the February it ends with makes it. */
  lemma YearGap(y: int)
    ensures DaysBack(y, 0, 1) - DaysBack(y - 1, 0, 1) == if Leap(y) then 366 else 365
  {
    var era := (y - 1) / 400;
    var yoe := y - 1 - era * 400;
    if yoe < 399 {
      EraOf(yoe + 1, era);
      YearStep(yoe);
      LeapRepeats(yoe + 1, era);
    } else {
      EraOf(0, era + 1);
      LeapRepeats(0, era + 1);
    }
  }

  /** The months from March to January are as far apart as they are long. */
  lemma MonthGap(y: int, mp: int)
    requires 0 <= mp <= 10
    ensures (153 * (mp + 1) + 2) / 5 - (153 * mp + 2) / 5 == DaysInMonth(y, MonthOf(mp))
  {
  }

  lemma NextMonth(y: int, mp: int, day: int)
    requires 0 <= mp <= 10 && day == DaysInMonth(y, MonthOf(mp))
    ensures forall year :: DaysBack(year, mp + 1, 1) == DaysBack(year, mp, day) + 1
  {
    MonthGap(y, mp);
  }

  lemma MonthEnd(x: Date)
    requires ValidDate(x) && x.month != 2 && x.day == DaysInMonth(x.year, x.month)
    ensures DaysFromCivil(NextDay(x)) == DaysFromCivil(x) + 1
  {
    var mp := (x.month + 9) % 12;
    MonthFrom(x.month);
    NextMonth(x.year, mp, x.day);
    assert DaysFromCivil(NextDay(x)) == DaysBack(if x.month <= 2 then x.year - 1 else x.year, mp + 1, 1);
  }

  lemma MonthFrom(m: int)
    requires 1 <= m <= 12 && m != 2
    ensures 0 <= (m + 9) % 12 <= 10 && MonthOf((m + 9) % 12) == m
    ensures (if m < 12 then m + 1 + 9 else 10) % 12 == (m + 9) % 12 + 1
  {
  }

  lemma FebruaryEnd(x: Date)
    requires ValidDate(x) && x.month == 2 && x.day == DaysInMonth(x.year, 2)
    ensures DaysFromCivil(NextDay(x)) == DaysFromCivil(x) + 1
  {
    YearGap(x.year);
  }

  lemma WithinMonth(x: Date)
    requires ValidDate(x) && x.day < DaysInMonth(x.year, x.month)
    ensures DaysFromCivil(NextDay(x)) == DaysFromCivil(x) + 1
  {
  }

  lemma NextDayValid(x: Date)
    requires ValidDate(x)
    ensures ValidDate(NextDay(x))
  {
  }

  lemma Epoch()
    ensures DaysFromCivil(Date(1970, 1, 1)) == 0
  {
  }

  /** Day numbers follow the calendar: day 0 is 1970-01-01, and the day after a date has the next number. */
  lemma DaysStep(x: Date)
    requires ValidDate(x)
    ensures ValidDate(NextDay(x)) && DaysFromCivil(NextDay(x)) == DaysFromCivil(x) + 1
    ensures DaysFromCivil(Date(1970, 1, 1)) == 0
  {
    Epoch();
    NextDayValid(x);
    if x.day < DaysInMonth(x.year, x.month) {
      WithinMonth(x);
    } else if x.month == 2 {
      FebruaryEnd(x);
    } else {
      MonthEnd(x);
    }
  }

  // Years.

  /** Digits, after a minus for a negative number, whose value is the number. */
  predicate Writes(s: string, y: int) {
    if y >= 0 then AllDigits(s) && Value(s) == y
    else s != "" && s[0] == '-' && AllDigits(s[1..]) && Value(s[1..]) == -y
  }

  lemma LongYear(y: int)
    requires y > 9999 || y < -999
    ensures |YearText(y)| >= 4 && Writes(YearText(y), y)
  {
    var v := if y > 0 then y else -y;
    DecimalReads(v);
    DecimalLong(v);
    if y < 0 { MinusBefore(Decimal(v), y); }
  }

  lemma MinusBefore(s: string, y: int)
    requires AllDigits(s) && y < 0 && Value(s) == -y
    ensures Writes(['-'] + s, y)
  {
    assert (['-'] + s)[1..] == s;
  }

  /** A year is written with at least four characters, sign included, and reads back as itself. */
  lemma YearTextReads(y: int)
    ensures |YearText(y)| >= 4 && Writes(YearText(y), y)
  {
    if 0 <= y <= 9999 {
      FourReads(y);
    } else if -999 <= y < 0 {
      ThreeReads(-y);
      MinusBefore([DigitChar(-y / 100)] + Two(-y % 100), y);
    } else {
      LongYear(y);
    }
  }

  lemma SnocReads(s: string, d: int)
    requires AllDigits(s) && 0 <= d <= 9
    ensures AllDigits(s + [DigitChar(d)]) && Value(s + [DigitChar(d)]) == Value(s) * 10 + d
  {
    assert (s + [DigitChar(d)])[..|s|] == s;
  }

  lemma TwoReads(s: string, v: nat)
    requires AllDigits(s) && v < 100
    ensures AllDigits(s + Two(v)) && Value(s + Two(v)) == Value(s) * 100 + v
  {
    SnocReads(s, v / 10);
    SnocReads(s + [DigitChar(v / 10)], v % 10);
    assert s + Two(v) == s + [DigitChar(v / 10)] + [DigitChar(v % 10)];
  }

  lemma FourReads(v: nat)
    requires v < 10000
    ensures |Four(v)| == 4 && AllDigits(Four(v)) && Value(Four(v)) == v
  {
    TwoReads("", v / 100);
    assert "" + Two(v / 100) == Two(v / 100);
    TwoReads(Two(v / 100), v % 100);
  }

  lemma ThreeReads(v: nat)
    requires v < 1000
    ensures AllDigits([DigitChar(v / 100)] + Two(v % 100)) && Value([DigitChar(v / 100)] + Two(v % 100)) == v
  {
    SnocReads("", v / 100);
    assert "" + [DigitChar(v / 100)] == [DigitChar(v / 100)];
    TwoReads([DigitChar(v / 100)], v % 100);
  }

  lemma {:induction false} DecimalReads(v: nat)
    ensures Value(Decimal(v)) == v
  {
    if v < 10 {
      SnocReads("", v);
      assert "" + [DigitChar(v)] == [DigitChar(v)];
    } else {
      DecimalReads(v / 10);
      SnocReads(Decimal(v / 10), v % 10);
    }
  }

  /** A thousand or more takes at least four digits. */
  lemma DecimalLong(v: nat)
    requires v >= 1000
    ensures |Decimal(v)| >= 4
  {
    assert |Decimal(v)| == |Decimal(v / 10)| + 1;
    assert |Decimal(v / 10)| == |Decimal(v / 10 / 10)| + 1;
    assert |Decimal(v / 10 / 10)| == |Decimal(v / 10 / 10 / 10)| + 1;
  }

  // The clock.

  /** The first three digits of a fraction are its milliseconds, missing ones being zero. */
  lemma MillisPadded(f: string)
    requires AllDigits(f)
    ensures AllDigits((f + "000")[..3]) && Millis(f) == Value((f + "000")[..3])
  {
    var g := (f + "000")[..3];
    if |f| >= 3 {
      assert g == f[..3];
    } else if |f| == 2 {
      ZeroBehind(f);
      assert g == f + "0";
    } else {
      ZeroBehind(f);
      ZeroBehind(f + "0");
      if |f| == 1 {
        assert g == f + "0" + "0";
      } else {
        ZeroBehind(f + "0" + "0");
        assert g == f + "0" + "0" + "0";
      }
    }
  }

  lemma ZeroBehind(f: string)
    requires AllDigits(f)
    ensures AllDigits(f + "0") && Value(f + "0") == 10 * Value(f)
  {
    assert (f + "0")[..|f|] == f;
  }

  /** A time written with an offset of `+h:m` is that much ahead of UTC, one with `-h:m` behind. */
  lemma OffsetIsAhead(x: Stamp, h: nat, m: nat, sign: char)
    requires ValidStamp(x) && x.time.Some? && x.time.value.offset == Shift(sign, h, Some(m))
    ensures var utc := x.(time := Some(x.time.value.(offset := Zulu('Z'))));
            Instant(utc) - Instant(x) == (if sign == '+' then 1 else -1) * (h * 60 + m) * 60_000
  {
  }

  /** Within a day, later times of day have larger instants, a minute being 60 seconds and an hour 60 minutes. */
  lemma ClockRuns(x: Stamp)
    requires ValidStamp(x) && x.time.Some? && x.time.value.offset == Zulu('Z')
    ensures var t := x.time.value;
            Instant(x) == DaysFromCivil(x.date) * 24 * 3_600_000 + t.hh * 3_600_000 + t.mm * 60_000 +
                          SecondsMs(t.seconds)
  {
  }
}
