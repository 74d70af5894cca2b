/** ISO 8601 timestamps: text layout, formatting and parsing. */
module Iso8601 {
  import opened Civil
  import opened Prelude

  const DAY_MS := 86_400_000

  // Decimal digits.

  predicate IsDigit(c: char) { '0' <= c <= '9' }

  function DigitChar(d: int): (c: char)
    requires 0 <= d <= 9
    ensures IsDigit(c)
  {
    '0' + d as char
  }

  function DigitValue(c: char): nat
    requires IsDigit(c)
  {
    c as int - '0' as int
  }

  /** Two digits, zero-padded. */
  function Two(v: nat): string
    requires v < 100
  {
    [DigitChar(v / 10), DigitChar(v % 10)]
  }

  function Four(v: nat): string
    requires v < 10000
  {
    Two(v / 100) + Two(v % 100)
  }

  /** Two digits off the front of the remaining text. */
  function ReadTwo(t: string): Option<(nat, string)> {
    if |t| >= 2 && IsDigit(t[0]) && IsDigit(t[1]) then Some((DigitValue(t[0]) * 10 + DigitValue(t[1]), t[2..]))
    else None
  }

  function ReadFour(t: string): Option<(nat, string)> {
    match ReadTwo(t)
    case None => None
    case Some((hi, rest)) =>
      match ReadTwo(rest)
      case None => None
      case Some((lo, rest')) => Some((hi * 100 + lo, rest'))
  }

  lemma TwoBack(v: nat, rest: string)
    requires v < 100
    ensures ReadTwo(Two(v) + rest) == Some((v, rest))
  {
    var t := Two(v) + rest;
    assert t[0] == DigitChar(v / 10) && t[1] == DigitChar(v % 10) && t[2..] == rest;
  }

  lemma TwoText(t: string)
    requires ReadTwo(t).Some?
    ensures ReadTwo(t).value.0 < 100 && t == Two(ReadTwo(t).value.0) + ReadTwo(t).value.1
  {
    assert t == [t[0], t[1]] + t[2..];
  }

  lemma FourBack(v: nat, rest: string)
    requires v < 10000
    ensures ReadFour(Four(v) + rest) == Some((v, rest))
  {
    assert Four(v) + rest == Two(v / 100) + (Two(v % 100) + rest);
    TwoBack(v / 100, Two(v % 100) + rest);
    TwoBack(v % 100, rest);
  }

  lemma FourText(t: string)
    requires ReadFour(t).Some?
    ensures ReadFour(t).value.0 < 10000 && t == Four(ReadFour(t).value.0) + ReadFour(t).value.1
  {
    TwoText(t);
    var (hi, rest) := ReadTwo(t).value;
    TwoText(rest);
    var (lo, rest') := ReadTwo(rest).value;
    assert (hi * 100 + lo) / 100 == hi && (hi * 100 + lo) % 100 == lo;
    assert Two(hi) + (Two(lo) + rest') == (Two(hi) + Two(lo)) + rest';
  }

  // Timestamps as written.

  predicate AllDigits(s: string) { forall i :: 0 <= i < |s| ==> IsDigit(s[i]) }

  datatype Offset = Local | Zulu(c: char) | Shift(sign: char, hours: nat, minutes: Option<nat>)

  datatype Seconds = NoSeconds | Seconds(ss: nat, fraction: string)

  datatype Time = Time(sep: char, hh: nat, mm: nat, seconds: Seconds, offset: Offset)

  datatype Stamp = Stamp(date: Date, time: Option<Time>)

  predicate ValidOffset(o: Offset) {
    match o
    case Local => true
    case Zulu(c) => c == 'Z' || c == 'z'
    case Shift(sign, h, m) => (sign == '+' || sign == '-') && h <= 14 && (m.Some? ==> m.value <= 59)
  }

  /** A leap second's 60 is allowed; an empty fraction is one that is not written. */
  predicate ValidSeconds(x: Seconds) { x.Seconds? ==> x.ss <= 60 && AllDigits(x.fraction) }

  predicate ValidTime(t: Time) {
    (t.sep == 'T' || t.sep == ' ') && t.hh <= 23 && t.mm <= 59 && ValidSeconds(t.seconds) && ValidOffset(t.offset)
  }

  predicate ValidStamp(x: Stamp) {
    ValidDate(x.date) && 0 <= x.date.year <= 9999 && (x.time.Some? ==> ValidTime(x.time.value))
  }

  function MinutesText(m: Option<nat>): string
    requires m.Some? ==> m.value <= 59
  {
    if m.None? then "" else [':'] + Two(m.value)
  }

  function OffsetText(o: Offset): string
    requires ValidOffset(o)
  {
    match o
    case Local => ""
    case Zulu(c) => [c]
    case Shift(sign, h, m) => [sign] + (Two(h) + MinutesText(m))
  }

  function FractionText(f: string): string { if f == "" then "" else ['.'] + f }

  /** Seconds followed by the rest of the text. */
  function SecondsThen(x: Seconds, rest: string): string
    requires ValidSeconds(x)
  {
    match x
    case NoSeconds => rest
    case Seconds(ss, f) => [':'] + (Two(ss) + (FractionText(f) + rest))
  }

  function TimeText(t: Time): string
    requires ValidTime(t)
  {
    [t.sep] + (Two(t.hh) + ([':'] + (Two(t.mm) + SecondsThen(t.seconds, OffsetText(t.offset)))))
  }

  function DateThen(x: Date, rest: string): string
    requires 1 <= x.month <= 12 && 1 <= x.day <= 31 && 0 <= x.year <= 9999
  {
    Four(x.year) + (['-'] + (Two(x.month) + (['-'] + (Two(x.day) + rest))))
  }

  function StampText(x: Stamp): string
    requires ValidStamp(x)
  {
    DateThen(x.date, if x.time.None? then "" else TimeText(x.time.value))
  }

  // What a timestamp means.

  function Value(s: string): nat
    requires AllDigits(s)
  {
    if s == [] then 0 else Value(s[..|s| - 1]) * 10 + DigitValue(s[|s| - 1])
  }

  /** The first three fraction digits as milliseconds. */
  function Millis(f: string): nat
    requires AllDigits(f)
  {
    if |f| >= 3 then Value(f[..3])
    else if |f| == 2 then Value(f) * 10
    else Value(f) * 100
  }

  function SecondsMs(x: Seconds): int
    requires ValidSeconds(x)
  {
    match x
    case NoSeconds => 0
    case Seconds(ss, f) => ss * 1000 + Millis(f)
  }

  function OffsetMs(o: Offset): int {
    match o
    case Shift(sign, h, m) =>
      var ms := (h * 3600 + (if m.Some? then m.value else 0) * 60) * 1000;
      if sign == '+' then -ms else ms
    case _ => 0
  }

  function TimeMs(t: Time): int
    requires ValidTime(t)
  {
    (t.hh * 3600 + t.mm * 60) * 1000 + SecondsMs(t.seconds) + OffsetMs(t.offset)
  }

  function Instant(x: Stamp): int
    requires ValidStamp(x)
  {
    DaysFromCivil(x.date) * DAY_MS + if x.time.None? then 0 else TimeMs(x.time.value)
  }

  // Reading the remaining text. Each reader is right about every valid text, and accepts nothing else.

  method ParseMinutes(t: string) returns (r: Option<Option<nat>>)
    ensures forall m: Option<nat> :: (m.Some? ==> m.value <= 59) && t == MinutesText(m) ==> r == Some(m)
    ensures r.Some? ==> (r.value.Some? ==> r.value.value <= 59) && t == MinutesText(r.value)
  {
    forall m: Option<nat> | m.Some? && m.value <= 59 && t == MinutesText(m)
      ensures t[0] == ':' && ReadTwo(t[1..]) == Some((m.value, ""))
    {
      assert t[1..] == Two(m.value) + "";
      TwoBack(m.value, "");
    }
    if t == "" { return Some(None); }
    if t[0] != ':' { return None; }
    var v := ReadTwo(t[1..]);
    if v.None? || v.value.1 != "" || v.value.0 > 59 { return None; }
    TwoText(t[1..]);
    assert t == [':'] + t[1..] && t[1..] == Two(v.value.0);
    return Some(Some(v.value.0));
  }

  /** What the text of an offset looks like to the reader. */
  lemma OffsetRead(x: Offset)
    requires ValidOffset(x)
    ensures var t := OffsetText(x);
            match x
            case Local => t == ""
            case Zulu(c) => |t| == 1 && t[0] == c
            case Shift(sign, h, m) => t != "" && t[0] == sign && ReadTwo(t[1..]) == Some((h, MinutesText(m)))
  {
    if x.Shift? { TwoBack(x.hours, MinutesText(x.minutes)); }
  }

  lemma ShiftWritten(t: string, h: nat, m: Option<nat>)
    requires t != "" && ReadTwo(t[1..]).Some? && ReadTwo(t[1..]).value.0 == h && ValidOffset(Shift(t[0], h, m))
    requires ReadTwo(t[1..]).value.1 == MinutesText(m)
    ensures t == OffsetText(Shift(t[0], h, m))
  {
    TwoText(t[1..]);
    assert t == [t[0]] + t[1..];
  }

  method ParseOffset(t: string) returns (r: Option<Offset>)
    ensures forall x :: ValidOffset(x) && t == OffsetText(x) ==> r == Some(x)
    ensures r.Some? ==> ValidOffset(r.value) && t == OffsetText(r.value)
  {
    forall x | ValidOffset(x) && t == OffsetText(x)
      ensures match x
              case Local => t == ""
              case Zulu(c) => |t| == 1 && t[0] == c
              case Shift(sign, h, m) => t != "" && t[0] == sign && ReadTwo(t[1..]) == Some((h, MinutesText(m)))
    {
      OffsetRead(x);
    }
    if t == "" { return Some(Local); }
    if (t[0] == 'Z' || t[0] == 'z') && |t| == 1 {
      assert t == [t[0]];
      return Some(Zulu(t[0]));
    }
    if t[0] != '+' && t[0] != '-' { return None; }
    var h := ReadTwo(t[1..]);
    if h.None? || h.value.0 > 14 { return None; }
    var m := ParseMinutes(h.value.1);
    if m.None? { return None; }
    ShiftWritten(t, h.value.0, m.value);
    return Some(Shift(t[0], h.value.0, m.value));
  }

  /** What may follow the seconds: nothing, or an offset. */
  predicate EndsTime(rest: string) { rest != "" ==> rest[0] != ':' && rest[0] != '.' && !IsDigit(rest[0]) }

  /** The digits at the front of the text. */
  method TakeDigits(t: string) returns (f: string, rest: string)
    ensures t == f + rest && AllDigits(f) && (rest != "" ==> !IsDigit(rest[0]))
  {
    var i := 0;
    while i < |t| && IsDigit(t[i])
      invariant 0 <= i <= |t| && AllDigits(t[..i])
    {
      i := i + 1;
    }
    return t[..i], t[i..];
  }

  /** A text splits at its first non-digit in one way only. */
  lemma DigitSplitUnique(f: string, r: string, g: string, q: string)
    requires f + r == g + q && AllDigits(f) && AllDigits(g)
    requires (r != "" ==> !IsDigit(r[0])) && (q != "" ==> !IsDigit(q[0]))
    ensures f == g && r == q
  {
    var t := f + r;
    assert r != "" ==> t[|f|] == r[0];
    assert q != "" ==> t[|g|] == q[0];
    assert forall k :: 0 <= k < |f| ==> t[k] == f[k];
    assert forall k :: 0 <= k < |g| ==> t[k] == g[k];
    assert |f| == |g|;
    assert f == t[..|f|] && g == t[..|g|] && r == t[|f|..] && q == t[|g|..];
  }

  ghost predicate FractionMatch(t: string, f: string, y: string) {
    AllDigits(f) && EndsTime(y) && t == FractionText(f) + y
  }

  lemma FractionRead(t: string, f: string, y: string)
    requires FractionMatch(t, f, y)
    ensures f == "" ==> t == y && (t != "" ==> t[0] != '.')
    ensures f != "" ==> t != "" && t[0] == '.' && t[1..] == f + y
  {
    if f != "" { assert t == ['.'] + (f + y); }
  }

  /** An optional `.` and digits: the empty string when there is no fraction. */
  method ParseFraction(t: string) returns (r: Option<string>, rest: string)
    ensures forall f, y :: FractionMatch(t, f, y) ==> r == Some(f) && rest == y
    ensures r.Some? ==> AllDigits(r.value) && t == FractionText(r.value) + rest
  {
    if t == "" || t[0] != '.' {
      forall f, y | FractionMatch(t, f, y) ensures f == "" && t == y { FractionRead(t, f, y); }
      return Some(""), t;
    }
    var f;
    f, rest := TakeDigits(t[1..]);
    forall g, y | FractionMatch(t, g, y) ensures g != "" && f == g && rest == y {
      FractionRead(t, g, y);
      DigitSplitUnique(f, rest, g, y);
    }
    if f == "" { return None, rest; }
    assert t == ['.'] + t[1..] && ['.'] + (f + rest) == (['.'] + f) + rest;
    return Some(f), rest;
  }

  /** The first three digits, scaled up when there are fewer. */
  method ParseMillis(f: string) returns (v: nat)
    requires AllDigits(f)
    ensures v == Millis(f)
  {
    var frac := if |f| >= 3 then f[..3] else f;
    v := Value(frac);
    var n := |frac|;
    while n < 3
      invariant |frac| <= n <= 3
      invariant |frac| == 0 ==> v == 0
      invariant |frac| > 0 ==> v == Value(frac) * (if n - |frac| == 0 then 1 else if n - |frac| == 1 then 10 else 100)
    {
      v := v * 10;
      n := n + 1;
    }
  }

  ghost predicate SecondsMatch(t: string, x: Seconds, y: string) {
    ValidSeconds(x) && EndsTime(y) && t == SecondsThen(x, y)
  }

  lemma SecondsAbsent(t: string, x: Seconds, y: string)
    requires SecondsMatch(t, x, y) && (t == "" || t[0] != ':')
    ensures x == NoSeconds && t == y
  {
  }

  lemma SecondsPresent(t: string, x: Seconds, y: string)
    requires SecondsMatch(t, x, y) && t != "" && t[0] == ':'
    ensures x.Seconds? && ReadTwo(t[1..]).Some? && ReadTwo(t[1..]).value.0 == x.ss
    ensures FractionMatch(ReadTwo(t[1..]).value.1, x.fraction, y)
  {
    if x.Seconds? { TwoBack(x.ss, FractionText(x.fraction) + y); }
  }

  lemma SecondsWritten(t: string, f: string, rest: string)
    requires t != "" && t[0] == ':' && ReadTwo(t[1..]).Some? && ReadTwo(t[1..]).value.0 <= 60 && AllDigits(f)
    requires ReadTwo(t[1..]).value.1 == FractionText(f) + rest
    ensures t == SecondsThen(Seconds(ReadTwo(t[1..]).value.0, f), rest)
  {
    TwoText(t[1..]);
    assert t == [':'] + t[1..];
  }

  method ParseSeconds(t: string) returns (r: Option<Seconds>, rest: string)
    ensures forall x, y :: SecondsMatch(t, x, y) ==> r == Some(x) && rest == y
    ensures r.Some? ==> ValidSeconds(r.value) && t == SecondsThen(r.value, rest)
  {
    if t == "" || t[0] != ':' {
      forall x, y | SecondsMatch(t, x, y) ensures x == NoSeconds && t == y { SecondsAbsent(t, x, y); }
      return Some(NoSeconds), t;
    }
    var ss := ReadTwo(t[1..]);
    forall x, y | SecondsMatch(t, x, y)
      ensures x.Seconds? && ss.Some? && ss.value.0 == x.ss <= 60 && FractionMatch(ss.value.1, x.fraction, y)
    {
      SecondsPresent(t, x, y);
    }
    if ss.None? || ss.value.0 > 60 { return None, t; }
    var f;
    f, rest := ParseFraction(ss.value.1);
    if f.None? { return None, rest; }
    SecondsWritten(t, f.value, rest);
    return Some(Seconds(ss.value.0, f.value)), rest;
  }

  lemma OffsetEndsTime(o: Offset)
    requires ValidOffset(o)
    ensures EndsTime(OffsetText(o))
  {
  }

  lemma TimeRead(t: string, x: Time)
    requires ValidTime(x) && t == TimeText(x)
    ensures t != "" && t[0] == x.sep && ReadTwo(t[1..]).Some? && ReadTwo(t[1..]).value.0 == x.hh
    ensures var u := ReadTwo(t[1..]).value.1;
            && u != "" && u[0] == ':'
            && ReadTwo(u[1..]) == Some((x.mm, SecondsThen(x.seconds, OffsetText(x.offset))))
  {
    var tail := SecondsThen(x.seconds, OffsetText(x.offset));
    TwoBack(x.hh, [':'] + (Two(x.mm) + tail));
    TwoBack(x.mm, tail);
  }

  method ParseTime(t: string) returns (r: Option<Time>)
    ensures forall x :: ValidTime(x) && t == TimeText(x) ==> r == Some(x)
    ensures r.Some? ==> ValidTime(r.value) && t == TimeText(r.value)
  {
    forall x | ValidTime(x) && t == TimeText(x)
      ensures t != "" && t[0] == x.sep && ReadTwo(t[1..]).Some? && ReadTwo(t[1..]).value.0 == x.hh
      ensures var u := ReadTwo(t[1..]).value.1;
              u != "" && u[0] == ':' && ReadTwo(u[1..]) == Some((x.mm, SecondsThen(x.seconds, OffsetText(x.offset))))
      ensures EndsTime(OffsetText(x.offset))
    {
      TimeRead(t, x);
      OffsetEndsTime(x.offset);
    }
    if t == "" || (t[0] != 'T' && t[0] != ' ') { return None; }
    var hh := ReadTwo(t[1..]);
    if hh.None? || hh.value.1 == "" || hh.value.1[0] != ':' { return None; }
    var mm := ReadTwo(hh.value.1[1..]);
    if mm.None? || hh.value.0 > 23 || mm.value.0 > 59 { return None; }
    forall x | ValidTime(x) && t == TimeText(x) ensures SecondsMatch(mm.value.1, x.seconds, OffsetText(x.offset)) { }
    var sec, rest := ParseSeconds(mm.value.1);
    if sec.None? { return None; }
    var off := ParseOffset(rest);
    if off.None? { return None; }
    TimeWritten(t, hh.value.0, mm.value.0, sec.value, off.value);
    r := Some(Time(t[0], hh.value.0, mm.value.0, sec.value, off.value));
  }

  lemma TimeWritten(t: string, hh: nat, mm: nat, sec: Seconds, o: Offset)
    requires t != "" && ReadTwo(t[1..]).Some? && ReadTwo(t[1..]).value.0 == hh
    requires var u := ReadTwo(t[1..]).value.1;
             u != "" && u[0] == ':' && ReadTwo(u[1..]).Some? && ReadTwo(u[1..]).value.0 == mm
    requires ValidTime(Time(t[0], hh, mm, sec, o))
    requires ReadTwo(ReadTwo(t[1..]).value.1[1..]).value.1 == SecondsThen(sec, OffsetText(o))
    ensures t == TimeText(Time(t[0], hh, mm, sec, o))
  {
    TwoText(t[1..]);
    var u := ReadTwo(t[1..]).value.1;
    TwoText(u[1..]);
    assert t == [t[0]] + t[1..] && u == [':'] + u[1..];
  }

  // Whole timestamps.

  lemma DateRead(x: Date, rest: string)
    requires ValidDate(x) && 0 <= x.year <= 9999
    ensures var t := DateThen(x, rest);
            && ReadFour(t).Some? && ReadFour(t).value.0 == x.year
            && var a := ReadFour(t).value.1;
               && a != "" && a[0] == '-' && ReadTwo(a[1..]).Some? && ReadTwo(a[1..]).value.0 == x.month
               && var b := ReadTwo(a[1..]).value.1;
                  b != "" && b[0] == '-' && ReadTwo(b[1..]) == Some((x.day as nat, rest))
  {
    FourBack(x.year, ['-'] + (Two(x.month) + (['-'] + (Two(x.day) + rest))));
    TwoBack(x.month, ['-'] + (Two(x.day) + rest));
    TwoBack(x.day, rest);
  }

  lemma DateWritten(t: string)
    requires ReadFour(t).Some?
    requires var a := ReadFour(t).value.1; a != "" && a[0] == '-' && ReadTwo(a[1..]).Some?
    requires var b := ReadTwo(ReadFour(t).value.1[1..]).value.1; b != "" && b[0] == '-' && ReadTwo(b[1..]).Some?
    requires var a := ReadFour(t).value.1;
             var b := ReadTwo(a[1..]).value.1;
             ValidDate(Date(ReadFour(t).value.0, ReadTwo(a[1..]).value.0, ReadTwo(b[1..]).value.0))
    ensures var a := ReadFour(t).value.1;
            var b := ReadTwo(a[1..]).value.1;
            var x := Date(ReadFour(t).value.0, ReadTwo(a[1..]).value.0, ReadTwo(b[1..]).value.0);
            x.year <= 9999 && t == DateThen(x, ReadTwo(b[1..]).value.1)
  {
    FourText(t);
    var a := ReadFour(t).value.1;
    TwoText(a[1..]);
    var b := ReadTwo(a[1..]).value.1;
    TwoText(b[1..]);
    assert a == ['-'] + a[1..] && b == ['-'] + b[1..];
  }

  method ParseDate(t: string) returns (r: Option<Date>, rest: string)
    ensures forall x, y :: ValidDate(x) && 0 <= x.year <= 9999 && t == DateThen(x, y) ==> r == Some(x) && rest == y
    ensures r.Some? ==> ValidDate(r.value) && 0 <= r.value.year <= 9999 && t == DateThen(r.value, rest)
  {
    forall x, y | ValidDate(x) && 0 <= x.year <= 9999 && t == DateThen(x, y)
      ensures ReadFour(t).Some? && ReadFour(t).value.0 == x.year
      ensures var a := ReadFour(t).value.1;
              && a != "" && a[0] == '-' && ReadTwo(a[1..]).Some? && ReadTwo(a[1..]).value.0 == x.month
              && var b := ReadTwo(a[1..]).value.1;
                 b != "" && b[0] == '-' && ReadTwo(b[1..]) == Some((x.day as nat, y))
    {
      DateRead(x, y);
    }
    rest := t;
    var year := ReadFour(t);
    if year.None? || year.value.1 == "" || year.value.1[0] != '-' { return None, rest; }
    var month := ReadTwo(year.value.1[1..]);
    if month.None? || month.value.1 == "" || month.value.1[0] != '-' { return None, rest; }
    var day := ReadTwo(month.value.1[1..]);
    if day.None? || !(1 <= month.value.0 <= 12) { return None, rest; }
    if !(1 <= day.value.0 <= DaysInMonth(year.value.0, month.value.0)) { return None, rest; }
    DateWritten(t);
    return Some(Date(year.value.0, month.value.0, day.value.0)), day.value.1;
  }

  lemma NoTimeText(t: Time)
    requires ValidTime(t)
    ensures TimeText(t) != ""
  {
  }

  method ParseStamp(s: string) returns (r: Option<Stamp>)
    ensures forall x :: ValidStamp(x) && s == StampText(x) ==> r == Some(x)
    ensures r.Some? ==> ValidStamp(r.value) && s == StampText(r.value)
  {
    var date, rest := ParseDate(s);
    forall x | ValidStamp(x) && s == StampText(x)
      ensures date == Some(x.date) && rest == if x.time.None? then "" else TimeText(x.time.value)
    {
    }
    if date.None? { return None; }
    if rest == "" {
      forall x | ValidStamp(x) && s == StampText(x) ensures x.time.None? {
        if x.time.Some? { NoTimeText(x.time.value); }
      }
      return Some(Stamp(date.value, None));
    }
    var time := ParseTime(rest);
    if time.None? { return None; }
    return Some(Stamp(date.value, time));
  }

  /** The milliseconds summed up field by field. */
  method SumInstant(x: Stamp) returns (ms: int)
    requires ValidStamp(x)
    ensures ms == Instant(x)
  {
    ms := DaysFromCivil(x.date) * DAY_MS;
    if x.time.None? { return; }
    var t := x.time.value;
    ms := ms + (t.hh * 3600 + t.mm * 60) * 1000;
    if t.seconds.Seconds? {
      ms := ms + t.seconds.ss * 1000;
      var v := ParseMillis(t.seconds.fraction);
      ms := ms + v;
    }
    if t.offset.Shift? {
      var shift := (t.offset.hours * 3600 + (if t.offset.minutes.Some? then t.offset.minutes.value else 0) * 60) * 1000;
      ms := if t.offset.sign == '+' then ms - shift else ms + shift;
    }
  }

  /** `parse_iso8601_ms`: the instant of every valid timestamp text, and nothing for any other text. */
  method ParseIso8601(s: string) returns (r: Option<int>)
    ensures forall x :: ValidStamp(x) && s == StampText(x) ==> r == Some(Instant(x))
    ensures r.Some? ==> exists x :: ValidStamp(x) && s == StampText(x)
  {
    var x := ParseStamp(s);
    if x.None? { return None; }
    var ms := SumInstant(x.value);
    return Some(ms);
  }

  // Formatting.

  function Decimal(v: nat): (s: string)
    ensures |s| >= 1 && AllDigits(s)
  {
    if v < 10 then [DigitChar(v)] else Decimal(v / 10) + [DigitChar(v % 10)]
  }

  /** A year at least four characters wide, its sign included. */
  function YearText(y: int): string {
    if 0 <= y <= 9999 then Four(y)
    else if y > 9999 then Decimal(y)
    else if -y <= 999 then ['-'] + ([DigitChar(-y / 100)] + Two(-y % 100))
    else ['-'] + Decimal(-y)
  }

  function Three(v: nat): string
    requires v < 1000
  {
    [DigitChar(v / 100)] + Two(v % 100)
  }

  /** The time of day of an instant, down to milliseconds, in UTC. */
  function TimeOfDay(rem: int): (t: Time)
    requires 0 <= rem < DAY_MS
    ensures ValidTime(t)
  {
    var secs, part := rem / 1000, rem % 1000;
    Time('T', secs / 3600, secs % 3600 / 60, Seconds(secs % 60, if part == 0 then "" else Three(part)), Zulu('Z'))
  }

  /** `format_iso8601_ms`. */
  function FormatIso8601(ms: int): string {
    var date := CivilFromDays(ms / DAY_MS);
    CivilRoundTrip(ms / DAY_MS);
    YearText(date.year) + (['-'] + (Two(date.month) + (['-'] + (Two(date.day) + TimeText(TimeOfDay(ms % DAY_MS))))))
  }

  lemma ThreeValue(v: nat)
    requires v < 1000
    ensures AllDigits(Three(v)) && |Three(v)| == 3 && Millis(Three(v)) == v
  {
    var t := Three(v);
    assert t[..3] == t && t[..2] == [DigitChar(v / 100), DigitChar(v % 100 / 10)];
    assert t[..2][..1] == [DigitChar(v / 100)] && [DigitChar(v / 100)][..0] == "";
    assert Value([DigitChar(v / 100)]) == v / 100;
    assert Value(t[..2]) == v / 100 * 10 + v % 100 / 10;
  }

  lemma ClockParts(rem: int)
    ensures var secs := rem / 1000;
            rem == (secs / 3600 * 3600 + secs % 3600 / 60 * 60) * 1000 + secs % 60 * 1000 + rem % 1000
  {
    var secs := rem / 1000;
    assert secs % 3600 / 60 * 60 + secs % 60 == secs % 3600;
  }

  lemma FractionMs(part: nat)
    requires part < 1000
    ensures var f := if part == 0 then "" else Three(part); AllDigits(f) && Millis(f) == part
  {
    if part != 0 { ThreeValue(part); }
  }

  lemma DayMs(rem: int)
    requires 0 <= rem < DAY_MS
    ensures TimeMs(TimeOfDay(rem)) == rem
  {
    FractionMs(rem % 1000);
    ClockParts(rem);
  }

  /** The written form of an instant in a four-digit year. */
  function Canonical(ms: int): Stamp { Stamp(CivilFromDays(ms / DAY_MS), Some(TimeOfDay(ms % DAY_MS))) }

  predicate FourDigit(ms: int) { -62_167_219_200_000 <= ms <= 253_402_300_799_999 }

  lemma FourDigitIs(ms: int)
    ensures FourDigit(ms) <==> 0 <= CivilFromDays(ms / DAY_MS).year <= 9999
  {
    FourDigitYears(ms / DAY_MS);
  }

  lemma CanonicalIs(ms: int)
    requires FourDigit(ms)
    ensures ValidStamp(Canonical(ms)) && FormatIso8601(ms) == StampText(Canonical(ms)) && Instant(Canonical(ms)) == ms
  {
    FourDigitIs(ms);
    CivilRoundTrip(ms / DAY_MS);
    DayMs(ms % DAY_MS);
    assert ms == ms / DAY_MS * DAY_MS + ms % DAY_MS;
  }

  lemma {:induction false} DecimalLength(v: nat)
    requires v >= 10000
    ensures |Decimal(v)| >= 5
  {
    assert |Decimal(v / 1000)| >= 2;
    assert |Decimal(v / 100)| >= 3;
    assert |Decimal(v / 10)| >= 4;
  }

  lemma StampStart(x: Stamp)
    requires ValidStamp(x)
    ensures var t := StampText(x); |t| >= 5 && IsDigit(t[0]) && t[4] == '-'
  {
    var rest := if x.time.None? then "" else TimeText(x.time.value);
    var tail := Two(x.date.month) + (['-'] + (Two(x.date.day) + rest));
    assert StampText(x) == Four(x.date.year) + (['-'] + tail);
  }

  lemma OtherYearStart(y: int, tail: string)
    requires !(0 <= y <= 9999)
    ensures var s := YearText(y) + tail; y < 0 ==> |s| > 0 && s[0] == '-'
    ensures var s := YearText(y) + tail; y > 9999 ==> |s| > 4 && IsDigit(s[4])
  {
    if y > 9999 { DecimalLength(y); }
  }

  /** Text of any other year is no timestamp: a sign or a fifth digit is where a dash should be. */
  lemma OtherYears(ms: int, x: Stamp)
    requires !FourDigit(ms) && ValidStamp(x)
    ensures FormatIso8601(ms) != StampText(x)
  {
    FourDigitIs(ms);
    CivilRoundTrip(ms / DAY_MS);
    var date := CivilFromDays(ms / DAY_MS);
    StampStart(x);
    OtherYearStart(date.year, ['-'] + (Two(date.month) + (['-'] + (Two(date.day) + TimeText(TimeOfDay(ms % DAY_MS))))));
  }

  /** Formatting and parsing returns the instant if and only if its year has four digits. */
  method RoundTrip(ms: int) returns (r: Option<int>)
    ensures r == if FourDigit(ms) then Some(ms) else None
  {
    var s := FormatIso8601(ms);
    r := ParseIso8601(s);
    if FourDigit(ms) {
      CanonicalIs(ms);
    } else {
      forall x | ValidStamp(x) ensures s != StampText(x) { OtherYears(ms, x); }
    }
  }
}
