// Conversion of a system time to a date and time of day, in the integer types of the source.

module Calendar {
  newtype i64 = x: int | -0x8000_0000_0000_0000 <= x <= 0x7fff_ffff_ffff_ffff
  newtype i32 = x: int | -0x8000_0000 <= x <= 0x7fff_ffff
  newtype u8 = x: int | 0 <= x <= 0xff
  newtype u32 = x: int | 0 <= x <= 0xffff_ffff

  // ---------- the proleptic Gregorian calendar ----------

  predicate Leap(y: int) { y % 4 == 0 && (y % 100 != 0 || y % 400 == 0) }

  function YearLength(y: int): int { if Leap(y) then 366 else 365 }

  function MonthLength(y: int, m: int): int
  {
    if m == 2 then (if Leap(y) then 29 else 28) else if m == 4 || m == 6 || m == 9 || m == 11 then 30 else 31
  }

  // Days from 1970-01-01 to the first day of the year.
  function YearStart(y: int): int
    decreases if y < 1970 then 1970 - y else y - 1970
  {
    if y == 1970 then 0 else if y > 1970 then YearStart(y - 1) + YearLength(y - 1) else YearStart(y + 1) - YearLength(y)
  }

  // Days of the year before the month.
  function MonthStart(y: int, m: int): int
    decreases m
  {
    if m <= 1 then 0 else MonthStart(y, m - 1) + MonthLength(y, m - 1)
  }

  function DayNumber(y: int, m: int, d: int): int { YearStart(y) + MonthStart(y, m) + d - 1 }

  datatype TimeNoDate = TimeNoDate(year: i64, month: u8, day: u8, hour: u8, minute: u8, second: u8, nanos: u32)

  predicate Valid(t: TimeNoDate)
  {
    && 1 <= t.month <= 12 && 1 <= t.day && t.day as int <= MonthLength(t.year as int, t.month as int)
    && t.hour < 24 && t.minute < 60 && t.second < 60 && t.nanos < 1_000_000_000
  }

  function SecondsOf(t: TimeNoDate): int
  {
    86400 * DayNumber(t.year as int, t.month as int, t.day as int) + 3600 * t.hour as int + 60 * t.minute as int + t.second as int
  }

  // Nanoseconds since the epoch.
  function NanosOf(t: TimeNoDate): int { 1_000_000_000 * SecondsOf(t) + t.nanos as int }

  function LeapsBefore(y: int): int { (y - 1) / 4 - (y - 1) / 100 + (y - 1) / 400 }

  lemma OneMoreLeap(y: int)
    ensures LeapsBefore(y + 1) == LeapsBefore(y) + if Leap(y) then 1 else 0
  {
    Quotient(y, 4);
    Quotient(y, 100);
    Quotient(y, 400);
  }

  lemma Quotient(y: int, n: int)
    requires n > 1
    ensures y / n == (y - 1) / n + if y % n == 0 then 1 else 0
  {
    var q, r := (y - 1) / n, (y - 1) % n;
    assert y - 1 == n * q + r;
    if r == n - 1 {
      assert y == n * (q + 1);
      Exact(y, n, q + 1, 0);
    } else {
      assert y == n * q + (r + 1);
      Exact(y, n, q, r + 1);
    }
  }

  lemma Exact(y: int, n: int, q: int, r: int)
    requires n > 0 && y == n * q + r && 0 <= r < n
    ensures y / n == q && y % n == r
  {
    var d := y / n - q;
    assert n * d == r - y % n by { assert y == n * (y / n) + y % n; assert n * d == n * (y / n) - n * q; }
    Multiple(n, d);
  }

  lemma Multiple(n: int, d: int)
    requires n > 0
    ensures d >= 1 ==> n * d >= n
    ensures d <= -1 ==> n * d <= -n
  {
  }

  // Counting years one by one agrees with counting leap years in blocks.
  lemma {:induction false} YearStartClosed(y: int)
    ensures YearStart(y) == 365 * (y - 1970) + LeapsBefore(y) - 477
    decreases if y < 1970 then 1970 - y else y - 1970
  {
    if y > 1970 {
      YearStartClosed(y - 1);
      OneMoreLeap(y - 1);
    } else if y < 1970 {
      YearStartClosed(y + 1);
      OneMoreLeap(y);
    } else {
      assert LeapsBefore(1970) == 477;
    }
  }

  // ---------- the calculation ----------

  // Division and remainder round towards zero.
  function Quot(a: int, b: int): int
    requires b > 0
  {
    if a >= 0 then a / b else -(-a / b)
  }

  function Rem(a: int, b: int): (r: int)
    requires b > 0
    ensures -b < r < b && (a >= 0 ==> r >= 0) && (a <= 0 ==> r <= 0)
  {
    if a >= 0 then a % b else -(-a % b)
  }

  lemma QuotientRemainder(a: int, b: int)
    requires b > 0
    ensures a == b * Quot(a, b) + Rem(a, b)
  {
  }

  const LEAPOCH: i64 := 946_684_800 + 86400 * (31 + 29)
  const DAYS_PER_400Y: i32 := 365 * 400 + 97
  const DAYS_PER_100Y: i32 := 365 * 100 + 24
  const DAYS_PER_4Y: i32 := 365 * 4 + 1
  const DAYS_IN_MONTH: seq<i32> := [31, 30, 31, 30, 31, 31, 30, 31, 30, 31, 31, 29]

  // Days since the last day of a February to the start of a month, counted from March.
  function MarchStart(months: nat): int
    requires months <= 12
  {
    if months == 0 then 0 else MarchStart(months - 1) + DAYS_IN_MONTH[months - 1] as int
  }

  lemma MarchTable(months: nat)
    requires months <= 12
    ensures MarchStart(months) == [0, 31, 61, 92, 122, 153, 184, 214, 245, 275, 306, 337, 366][months]
  {
    if months > 0 { MarchTable(months - 1); }
  }

  lemma MonthTable(y: int, m: int)
    requires 1 <= m <= 12
    ensures MonthStart(y, m) == [0, 31, 59, 90, 120, 151, 181, 212, 243, 273, 304, 334][m - 1] + if m > 2 && Leap(y) then 1 else 0
  {
    if m > 1 { MonthTable(y, m - 1); }
  }

  // Splits seconds into days since the reference day and seconds of the day.
  method SplitDays(t: i64) returns (days: i64, remsecs: i32)
    ensures 86400 * days as int + remsecs as int == t as int - LEAPOCH as int && 0 <= remsecs < 86400
    ensures -0x1_0000_0000_0000 < days < 0x1_0000_0000_0000
  {
    assert LEAPOCH as int == 86400 * 11017;
    QuotientRemainder(t as int, 86_400);
    days := Quot(t as int, 86_400) as i64 - Quot(LEAPOCH as int, 86_400) as i64;
    remsecs := Rem(t as int, 86_400) as i32;
    if remsecs < 0 {
      remsecs := remsecs + 86_400;
      days := days - 1;
    }
  }

  // What remains of a 400-year cycle after whole centuries, four-year blocks and years.
  predicate Decomposed(rest: int, c: int, q: int, y: int, remdays: int)
  {
    && 0 <= c <= 3 && 0 <= q <= 24 && 0 <= y <= 3 && 0 <= remdays <= 365
    && rest == 36524 * c + 1461 * q + 365 * y + remdays
    && (remdays == 365 ==> y == 3 && (q < 24 || c == 3))
  }

  method SplitYears(rest: i32) returns (c: i32, q: i32, y: i32, remdays: i32)
    requires 0 <= rest < DAYS_PER_400Y
    ensures Decomposed(rest as int, c as int, q as int, y as int, remdays as int)
  {
    remdays := rest;
    c := remdays / DAYS_PER_100Y;
    if c == 4 { c := c - 1; }
    remdays := remdays - c * DAYS_PER_100Y;
    q := remdays / DAYS_PER_4Y;
    // A century has no 25th whole block of four years, so this correction is never needed.
    if q == 25 { assert false; }
    remdays := remdays - q * DAYS_PER_4Y;
    y := remdays / 365;
    if y == 4 { y := y - 1; }
    remdays := remdays - y * 365;
  }

  // The year that begins on the first of March after `years` years.
  lemma MarchDay(qc: int, c: int, q: int, y: int)
    requires 0 <= c <= 3 && 0 <= q <= 24 && 0 <= y <= 3
    ensures var years := y + 4 * q + 100 * c + 400 * qc;
      && DayNumber(2000 + years, 3, 1) == 11017 + 146097 * qc + 36524 * c + 1461 * q + 365 * y
      && (Leap(2001 + years) <==> y == 3 && (q < 24 || c == 3))
  {
    var years := y + 4 * q + 100 * c + 400 * qc;
    Exact(years, 4, q + 25 * c + 100 * qc, y);
    Exact(years, 100, c + 4 * qc, y + 4 * q);
    Exact(years, 400, qc, y + 4 * q + 100 * c);
    Cycles(years);
    YearStartClosed(2000 + years);
    OneMoreLeap(2000 + years);
    MonthTable(2000 + years, 3);
    LeapParts(qc, c, q, y);
  }

  lemma LeapParts(qc: int, c: int, q: int, y: int)
    requires 0 <= c <= 3 && 0 <= q <= 24 && 0 <= y <= 3
    ensures Leap(2001 + y + 4 * q + 100 * c + 400 * qc) <==> y == 3 && (q < 24 || c == 3)
  {
  }

  // The year 2000 starts a cycle of every kind.
  lemma Cycles(years: int)
    ensures (2000 + years) / 4 == 500 + years / 4 && (2000 + years) / 100 == 20 + years / 100 && (2000 + years) / 400 == 5 + years / 400
  {
  }

  // The month loop never looks past the last month.
  method FindMonth(start: i32) returns (months: i32, remdays: i32)
    requires 0 <= start <= 365
    ensures 0 <= months <= 11 && 0 <= remdays < DAYS_IN_MONTH[months]
    ensures start as int == MarchStart(months as nat) + remdays as int
  {
    months, remdays := 0, start;
    MarchTable(11);
    while DAYS_IN_MONTH[months] <= remdays
      invariant 0 <= months <= 11 && 0 <= remdays
      invariant start as int == MarchStart(months as nat) + remdays as int
      decreases 11 - months as int
    {
      if months == 11 { assert false; }
      remdays := remdays - DAYS_IN_MONTH[months];
      months := months + 1;
    }
  }

  lemma {:induction false} SpringMonth(y: int, months: nat)
    requires months <= 9
    ensures MonthStart(y, months + 3) == MonthStart(y, 3) + MarchStart(months)
    ensures MonthLength(y, months + 3) == DAYS_IN_MONTH[months] as int
  {
    if months > 0 { SpringMonth(y, months - 1); }
  }

  lemma WinterMonth(y: int, months: nat)
    requires 10 <= months <= 11
    ensures YearStart(y + 1) + MonthStart(y + 1, months - 9) == YearStart(y) + MonthStart(y, 3) + MarchStart(months)
    ensures MonthLength(y + 1, months - 9) == if months == 11 && !Leap(y + 1) then 28 else DAYS_IN_MONTH[months] as int
  {
  }

  // The month and day found lie in the calendar year, and count up to the right day.
  lemma MonthDay(y: int, months: int, remdays: int, start: int)
    requires 0 <= months <= 11 && 0 <= remdays < DAYS_IN_MONTH[months] as int && start == MarchStart(months) + remdays
    requires start == 365 ==> Leap(y + 1)
    ensures var late := months >= 10;
      var year, month := if late then y + 1 else y, if late then months - 9 else months + 3;
      && 1 <= month <= 12 && 1 <= remdays + 1 <= MonthLength(year, month)
      && DayNumber(year, month, remdays + 1) == DayNumber(y, 3, 1) + start
  {
    if months >= 10 {
      WinterMonth(y, months);
      MarchTable(11);
    } else {
      SpringMonth(y, months);
    }
  }

  lemma NextYear(y: int)
    ensures YearStart(y + 1) == YearStart(y) + YearLength(y)
  {
  }

  method SplitCycles(days: i64) returns (qc: i32, rest: i32)
    requires -0x1_0000_0000_0000 < days < 0x1_0000_0000_0000
    ensures days as int == 146097 * qc as int + rest as int && 0 <= rest < DAYS_PER_400Y
    ensures -0x7fff_ffff <= qc
  {
    QuotientRemainder(days as int, 146097);
    qc := Quot(days as int, DAYS_PER_400Y as int) as i32;
    rest := Rem(days as int, DAYS_PER_400Y as int) as i32;
    if rest < 0 {
      rest := rest + DAYS_PER_400Y;
      qc := qc - 1;
    }
  }

  // The date of a day counted from the first of March 2000.
  method DateOf(days: i64) returns (year: i64, month: u8, day: u8)
    requires -0x1_0000_0000_0000 < days < 0x1_0000_0000_0000
    ensures 1 <= month <= 12 && 1 <= day && day as int <= MonthLength(year as int, month as int)
    ensures DayNumber(year as int, month as int, day as int) == days as int + 11017
  {
    var qc, rest := SplitCycles(days);
    var c, q, y, start := SplitYears(rest);
    var years := y as i64 + 4 * q as i64 + 100 * c as i64 + 400 * qc as i64;
    MarchDay(qc as int, c as int, q as int, y as int);
    var months, remdays := FindMonth(start);
    MonthDay(2000 + years as int, months as int, remdays as int, start as int);
    if months >= 10 {
      months := months - 12;
      years := years + 1;
    }
    year, month, day := years + 2000, (months + 3) as u8, (remdays + 1) as u8;
  }

  // Whole seconds: exact, and no intermediate value leaves its type.
  method FromSeconds(t: i64, nanos: u32) returns (r: TimeNoDate)
    requires nanos < 1_000_000_000
    ensures Valid(r) && SecondsOf(r) == t as int && r.nanos == nanos
  {
    var days, remsecs := SplitDays(t);
    var year, month, day := DateOf(days);
    DayTime(remsecs as int);
    r := TimeNoDate(year, month, day, (remsecs / 3600) as u8, (remsecs / 60 % 60) as u8, (remsecs % 60) as u8, nanos);
    assert LEAPOCH as int == 86400 * 11017;
  }

  lemma DayTime(s: int)
    requires 0 <= s < 86400
    ensures 3600 * (s / 3600) + 60 * (s / 60 % 60) + s % 60 == s && s / 3600 < 24
  {
  }

  // A time as the standard library reports it: a distance from the epoch, before or after it.
  datatype SystemTime = Since(secs: i64, nanos: u32) | Before(secs: i64, nanos: u32)

  predicate IsTime(t: SystemTime) { t.secs >= 0 && t.nanos < 1_000_000_000 }

  function TotalNanos(t: SystemTime): int
  {
    var distance := 1_000_000_000 * t.secs as int + t.nanos as int;
    if t.Since? then distance else -distance
  }

  // For every time whose seconds fit the type, the result is the valid date and time of day
  // that counts back to it, to the nanosecond.
  method FromSystemTime(t: SystemTime) returns (r: TimeNoDate)
    requires IsTime(t)
    ensures Valid(r) && NanosOf(r) == TotalNanos(t)
  {
    var secs, nanos: u32;
    match t {
      case Since(s, n) => secs, nanos := s, n;
      case Before(s, n) =>
        if n == 0 {
          secs, nanos := -s, 0;
        } else {
          secs, nanos := -s - 1, 1_000_000_000 - n;
        }
    }
    r := FromSeconds(secs, nanos);
  }

  // ---------- uniqueness ----------

  lemma {:induction false} LaterYear(a: int, b: int)
    requires a < b
    ensures YearStart(a) + YearLength(a) <= YearStart(b)
    decreases b - a
  {
    NextYear(a);
    if a + 1 < b { LaterYear(a + 1, b); }
  }

  lemma {:induction false} LaterMonth(y: int, a: int, b: int)
    requires 1 <= a < b <= 12
    ensures MonthStart(y, a) + MonthLength(y, a) <= MonthStart(y, b)
    decreases b
  {
    if a < b - 1 { LaterMonth(y, a, b - 1); }
  }

  lemma InYear(y: int, m: int, d: int)
    requires 1 <= m <= 12 && 1 <= d <= MonthLength(y, m)
    ensures YearStart(y) <= DayNumber(y, m, d) < YearStart(y) + YearLength(y)
  {
    MonthTable(y, m);
  }

  lemma SameDay(y1: int, m1: int, d1: int, y2: int, m2: int, d2: int)
    requires 1 <= m1 <= 12 && 1 <= d1 <= MonthLength(y1, m1) && 1 <= m2 <= 12 && 1 <= d2 <= MonthLength(y2, m2)
    requires DayNumber(y1, m1, d1) == DayNumber(y2, m2, d2)
    ensures y1 == y2 && m1 == m2 && d1 == d2
  {
    InYear(y1, m1, d1);
    InYear(y2, m2, d2);
    if y1 < y2 { LaterYear(y1, y2); }
    if y2 < y1 { LaterYear(y2, y1); }
    if y1 == y2 {
      if m1 < m2 { LaterMonth(y1, m1, m2); }
      if m2 < m1 { LaterMonth(y1, m2, m1); }
    }
  }

  // Two valid results that count to the same instant are the same.
  lemma OneResult(a: TimeNoDate, b: TimeNoDate)
    requires Valid(a) && Valid(b) && NanosOf(a) == NanosOf(b)
    ensures a == b
  {
    assert SecondsOf(a) == SecondsOf(b) && a.nanos == b.nanos;
    var x, y := DayNumber(a.year as int, a.month as int, a.day as int), DayNumber(b.year as int, b.month as int, b.day as int);
    assert x == y;
    SameDay(a.year as int, a.month as int, a.day as int, b.year as int, b.month as int, b.day as int);
  }
}
