/** FAT timestamps: from Unix seconds by counting off years and months, and back by a closed form.
    The fields are those of "Date and Time Formats" in the FAT32 File System Specification 1.03. */
module FatTime {

  const TWO32: nat := 0x1_0000_0000

  /** The first second of 1980. */
  const EPOCH: nat := 315532800

  predicate Leap(year: nat) { (year % 4 == 0 && year % 100 != 0) || year % 400 == 0 }

  function YearDays(year: nat): nat { if Leap(year) then 366 else 365 }

  const DAYS: seq<nat> := [31, 28, 31, 30, 31, 30, 31, 31, 30, 31, 30, 31]

  /** The days of month m, counted from 0. */
  function MonthDays(year: nat, m: nat): nat
    requires m < 12
  {
    if m == 1 && Leap(year) then 29 else DAYS[m]
  }

  // ----- the calendar -----

  /** The days from the start of 1970 to the start of a year. */
  function DaysTo(year: nat): nat
    requires 1970 <= year
  {
    if year == 1970 then 0 else DaysTo(year - 1) + YearDays(year - 1)
  }

  /** The days from the start of a year to the start of month m. */
  function MonthStart(year: nat, m: nat): nat
    requires m <= 12
  {
    if m == 0 then 0 else MonthStart(year, m - 1) + MonthDays(year, m - 1)
  }

  /** The days of the years before a year of the common era. */
  function Gregorian(y: nat): int { 365 * y + y / 4 - y / 100 + y / 400 }

  lemma GregorianStep(y: nat)
    requires y > 0
    ensures Gregorian(y) == Gregorian(y - 1) + YearDays(y)
  {
    By4(y);
    By100(y);
    By400(y);
    assert Leap(y) <==> (y % 4 == 0 && y % 100 != 0) || y % 400 == 0;
  }

  lemma By4(y: nat)
    requires y > 0
    ensures y / 4 == (y - 1) / 4 + if y % 4 == 0 then 1 else 0
  {
  }

  lemma By100(y: nat)
    requires y > 0
    ensures y / 100 == ((y - 1) / 100 + if y % 100 == 0 then 1 else 0) && (y % 100 == 0 ==> y % 4 == 0)
  {
    var q, r := (y - 1) / 100, (y - 1) % 100;
    assert y == 100 * q + r + 1;
    if r + 1 == 100 { assert y == 4 * (25 * (q + 1)); }
  }

  lemma By400(y: nat)
    requires y > 0
    ensures y / 400 == ((y - 1) / 400 + if y % 400 == 0 then 1 else 0) && (y % 400 == 0 ==> y % 100 == 0)
  {
    var q, r := (y - 1) / 400, (y - 1) % 400;
    assert y == 400 * q + r + 1;
    if r + 1 == 400 { assert y == 100 * (4 * (q + 1)); }
  }

  lemma {:induction false} DaysToIs(year: nat)
    requires 1970 <= year
    ensures DaysTo(year) == Gregorian(year - 1) - 719162
  {
    if year > 1970 {
      DaysToIs(year - 1);
      GregorianStep(year - 1);
    }
  }

  lemma MonthStarts(year: nat)
    ensures var l := if Leap(year) then 1 else 0;
            && MonthStart(year, 0) == 0 && MonthStart(year, 1) == 31 && MonthStart(year, 2) == 59 + l
            && MonthStart(year, 3) == 90 + l
            && MonthStart(year, 4) == 120 + l && MonthStart(year, 5) == 151 + l && MonthStart(year, 6) == 181 + l
            && MonthStart(year, 7) == 212 + l
            && MonthStart(year, 8) == 243 + l && MonthStart(year, 9) == 273 + l && MonthStart(year, 10) == 304 + l
            && MonthStart(year, 11) == 334 + l
            && MonthStart(year, 12) == 365 + l
  {
    assert MonthStart(year, 1) == 31;
    assert MonthStart(year, 2) == 31 + MonthDays(year, 1);
    assert MonthStart(year, 3) == MonthStart(year, 2) + 31;
    assert MonthStart(year, 4) == MonthStart(year, 3) + 30;
    assert MonthStart(year, 5) == MonthStart(year, 4) + 31;
    assert MonthStart(year, 6) == MonthStart(year, 5) + 30;
    assert MonthStart(year, 7) == MonthStart(year, 6) + 31;
    assert MonthStart(year, 8) == MonthStart(year, 7) + 31;
    assert MonthStart(year, 9) == MonthStart(year, 8) + 30;
    assert MonthStart(year, 10) == MonthStart(year, 9) + 31;
    assert MonthStart(year, 11) == MonthStart(year, 10) + 30;
    assert MonthStart(year, 12) == MonthStart(year, 11) + 31;
  }

  // ----- the closed form -----

  /** The days since 1970 of a date, by eras of 400 years that start in March. */
  function Civil(year: nat, month: nat, day: nat): int
    requires year > 0 && month >= 1
  {
    var y := if month <= 2 then year - 1 else year;
    var era := y / 400;
    var yoe := y - era * 400;
    var doy := (153 * (if month > 2 then month - 3 else month + 9) + 2) / 5 + day - 1;
    var doe := yoe * 365 + yoe / 4 - yoe / 100 + doy;
    era * 146097 + doe - 719468
  }

  lemma EraIs(y: nat)
    ensures var era := y / 400; var yoe := y - era * 400; era * 146097 + yoe * 365 + yoe / 4 - yoe / 100 == Gregorian(y)
  {
    var era := y / 400;
    var yoe := y - era * 400;
    assert y / 4 == 100 * era + yoe / 4;
    assert y / 100 == 4 * era + yoe / 100;
  }

  /** The closed form is the calendar. */
  lemma CivilIs(year: nat, month: nat, day: nat)
    requires 1970 <= year && 1 <= month <= 12
    ensures Civil(year, month, day) == DaysTo(year) + MonthStart(year, month - 1) + day - 1
  {
    DaysToIs(year);
    MonthStarts(year);
    EraIs(if month <= 2 then year - 1 else year);
    GregorianStep(year);
    hide DaysTo, MonthStart, Gregorian, Leap;
  }

  // ----- the conversions -----

  /** A timestamp as stored on disk. */
  datatype Stamp = Stamp(date: nat, time: nat)

  function Year(s: Stamp): (y: nat)
    ensures 1980 <= y < 2108
  {
    1980 + s.date / 512 % 128
  }

  function Month(s: Stamp): nat { s.date / 32 % 16 }

  function Day(s: Stamp): nat { s.date % 32 }

  /** The second of the day. */
  function Clock(s: Stamp): nat { s.time / 2048 % 32 * 3600 + s.time / 32 % 64 * 60 + s.time % 32 * 2 }

  /** The stamp holds a date of the calendar. */
  predicate DateOk(s: Stamp) { 1 <= Month(s) <= 12 && 1 <= Day(s) <= MonthDays(Year(s), Month(s) - 1) }

  function DayNumber(s: Stamp): int
    requires DateOk(s)
  {
    DaysTo(Year(s)) + MonthStart(Year(s), Month(s) - 1) + Day(s) - 1
  }

  /** s is the stamp of second t: its own day from 1980 on, the first day of 1980 before. */
  ghost predicate Encodes(t: nat, s: Stamp) {
    && s.date < 0x1_0000 && s.time < 0x1_0000 && DateOk(s)
    && DayNumber(s) == (if t >= EPOCH then t / 86400 else EPOCH / 86400)
    && Clock(s) == t % 86400 - t % 2
  }

  method ToFat(t: nat) returns (s: Stamp)
    requires t < TWO32
    ensures Encodes(t, s)
  {
    var sec, min, hour, days := t % 60, t / 60 % 60, t / 60 / 60 % 24, t / 60 / 60 / 24;
    ghost var total := days;
    ClockIs(t, sec, min, hour, days);
    hide DaysTo, MonthStart, MonthDays, YearDays;
    var year, month := 1970, 1;
    DaysToFirst();
    while days >= YearDays(year)
      invariant 1970 <= year && 0 <= days && days + DaysTo(year) == total
      decreases days
    {
      YearIs(year);
      days := days - YearDays(year);
      year := year + 1;
    }
    YearBound(year, total);
    ghost var inYear := days;
    var m := 0;
    MonthFirst(year);
    while m < 12
      invariant 0 <= m < 12 && month == m + 1 && 0 <= days && days + MonthStart(year, m) == inYear < YearDays(year)
    {
      var md := MonthDays(year, m);
      if days < md { break; }
      MonthNext(year, m, days);
      days := days - md;
      month := month + 1;
      m := m + 1;
    }
    MonthDaysBound(year, m);
    YearFrom1980(year, total, days + MonthStart(year, m));
    if year < 1980 {
      year, month, days := 1980, 1, 0;
      First1980();
    }
    s := Stamp((year - 1980) * 512 + month * 32 + days + 1, hour * 2048 + min * 32 + sec / 2);
    Packed(s, year, month, days + 1, hour, min, sec);
  }

  lemma ClockIs(t: nat, sec: nat, min: nat, hour: nat, days: nat)
    requires sec == t % 60 && min == t / 60 % 60 && hour == t / 60 / 60 % 24 && days == t / 60 / 60 / 24
    ensures days == t / 86400 && hour * 3600 + min * 60 + sec == t % 86400 && t % 2 == sec % 2
  {
    assert t / 60 / 60 == t / 3600;
    assert t / 3600 / 24 == t / 86400;
  }

  lemma DaysToFirst()
    ensures DaysTo(1970) == 0
  {
  }

  lemma YearIs(year: nat)
    requires 1970 <= year
    ensures DaysTo(year + 1) == DaysTo(year) + YearDays(year) && YearDays(year) > 0
  {
  }

  lemma {:induction false} DaysToGrows(y: nat, z: nat)
    requires 1970 <= y <= z
    ensures DaysTo(y) <= DaysTo(z)
    decreases z
  {
    if y < z { DaysToGrows(y, z - 1); }
  }

  /** Seconds of 32 bits end in 2106. */
  lemma YearBound(year: nat, total: nat)
    requires 1970 <= year && DaysTo(year) <= total <= TWO32 / 86400
    ensures year <= 2106
  {
    DaysToIs(2107);
    if year > 2106 { DaysToGrows(2107, year); }
  }

  lemma MonthFirst(year: nat)
    ensures MonthStart(year, 0) == 0
  {
  }

  lemma MonthNext(year: nat, m: nat, days: nat)
    requires m < 12 && MonthDays(year, m) <= days && days + MonthStart(year, m) < YearDays(year)
    ensures m + 1 < 12 && MonthStart(year, m + 1) == MonthStart(year, m) + MonthDays(year, m)
  {
    MonthStarts(year);
  }

  lemma MonthDaysBound(year: nat, m: nat)
    requires m < 12
    ensures 28 <= MonthDays(year, m) <= 31
  {
  }

  lemma First1980()
    ensures DaysTo(1980) == EPOCH / 86400 && MonthStart(1980, 0) == 0 && MonthDays(1980, 0) == 31
  {
    DaysToIs(1980);
  }

  lemma YearFrom1980(year: nat, total: nat, rest: nat)
    requires 1970 <= year && DaysTo(year) + rest == total && rest < YearDays(year)
    ensures year < 1980 <==> total < EPOCH / 86400
  {
    First1980();
    if year < 1980 { YearIs(year); DaysToGrows(year + 1, 1980); } else { DaysToGrows(1980, year); }
  }

  lemma Packed(s: Stamp, year: nat, month: nat, day: nat, hour: nat, min: nat, sec: nat)
    requires 1980 <= year < 2108 && month < 16 && day < 32 && hour < 32 && min < 60 && sec < 60
    requires s == Stamp((year - 1980) * 512 + month * 32 + day, hour * 2048 + min * 32 + sec / 2)
    ensures Year(s) == year && Month(s) == month && Day(s) == day && Clock(s) == hour * 3600 + min * 60 + sec - sec % 2
    ensures s.date < 0x1_0000 && s.time < 0x1_0000
  {
    DateDigits(s.date, year - 1980, month, day);
    TimeDigits(s.time, hour, min, sec / 2);
  }

  lemma DateDigits(x: nat, a: nat, b: nat, c: nat)
    requires x == a * 512 + b * 32 + c && a < 128 && b < 16 && c < 32
    ensures x < 0x1_0000 && x / 512 % 128 == a && x / 32 % 16 == b && x % 32 == c
  {
    assert x / 32 == a * 16 + b;
  }

  lemma TimeDigits(x: nat, a: nat, b: nat, c: nat)
    requires x == a * 2048 + b * 32 + c && a < 32 && b < 64 && c < 32
    ensures x < 0x1_0000 && x / 2048 % 32 == a && x / 32 % 64 == b && x % 32 == c
  {
    assert x / 32 == a * 64 + b;
  }

  /** fat32_fat_to_unix: the seconds of any stamp; fields out of range are clamped. */
  function FromFat(s: Stamp): int {
    var month := if Month(s) < 1 then 1 else if Month(s) > 12 then 12 else Month(s);
    var day := if Day(s) < 1 then 1 else if Day(s) > 31 then 31 else Day(s);
    Civil(Year(s), month, day) * 86400 + Clock(s)
  }

  /** There and back gives the even second, from 1980 on; earlier times keep their time of day. */
  lemma RoundTrip(t: nat, s: Stamp)
    requires Encodes(t, s)
    ensures FromFat(s) == if t >= EPOCH then t - t % 2 else EPOCH + t % 86400 - t % 2
  {
    MonthDaysBound(Year(s), Month(s) - 1);
    CivilIs(Year(s), Month(s), Day(s));
    hide Civil, DaysTo, MonthStart, MonthDays, Year, Month, Day, Clock;
  }

  /** A day number belongs to one date. */
  lemma DateUnique(s: Stamp, r: Stamp)
    requires DateOk(s) && DateOk(r) && DayNumber(s) == DayNumber(r)
    ensures Year(s) == Year(r) && Month(s) == Month(r) && Day(s) == Day(r)
  {
    hide DaysTo, YearDays, MonthStart, MonthDays, Year, Month, Day;
    InYear(s);
    InYear(r);
    if Year(s) < Year(r) { DaysToGrows(Year(s) + 1, Year(r)); }
    if Year(r) < Year(s) { DaysToGrows(Year(r) + 1, Year(s)); }
    MonthEnd(s);
    MonthEnd(r);
    if Month(s) < Month(r) { MonthsGrow(Year(s), Month(s), Month(r) - 1); }
    if Month(r) < Month(s) { MonthsGrow(Year(s), Month(r), Month(s) - 1); }
  }

  lemma MonthEnd(s: Stamp)
    requires DateOk(s)
    ensures MonthStart(Year(s), Month(s)) == MonthStart(Year(s), Month(s) - 1) + MonthDays(Year(s), Month(s) - 1)
  {
  }

  lemma {:induction false} MonthsGrow(year: nat, a: nat, b: nat)
    requires a <= b <= 12
    ensures MonthStart(year, a) <= MonthStart(year, b)
    decreases b
  {
    if a < b { MonthsGrow(year, a, b - 1); }
  }

  lemma InYear(s: Stamp)
    requires DateOk(s)
    ensures DaysTo(Year(s)) <= DayNumber(s) < DaysTo(Year(s) + 1)
  {
    MonthStarts(Year(s));
    MonthsGrow(Year(s), Month(s), 12);
    YearIs(Year(s));
  }

  /** Every stamp of a valid date and time before the end of 32-bit time is its own round trip. */
  lemma BackAgain(s: Stamp, r: Stamp)
    requires s.date < 0x1_0000 && s.time < 0x1_0000 && DateOk(s) && Clock(s) < 86400
    requires var t := FromFat(s); 0 <= t && Encodes(t, r)
    ensures r.date == s.date && Clock(r) == Clock(s)
  {
    hide Civil, DaysTo, MonthStart, MonthDays, Year, Month, Day, Clock;
    MonthDaysBound(Year(s), Month(s) - 1);
    CivilIs(Year(s), Month(s), Day(s));
    AfterEpoch(s);
    EvenClock(s);
    Split86400(FromFat(s), DayNumber(s), Clock(s));
    DateUnique(s, r);
    SameDate(s, r);
  }

  lemma EvenClock(s: Stamp)
    ensures Clock(s) % 2 == 0
  {
    var a, b, c := s.time / 2048 % 32, s.time / 32 % 64, s.time % 32;
    assert Clock(s) == 2 * (a * 1800 + b * 30 + c);
  }

  lemma AfterEpoch(s: Stamp)
    requires DateOk(s)
    ensures DayNumber(s) >= EPOCH / 86400
  {
    First1980();
    DaysToGrows(1980, Year(s));
  }

  lemma Split86400(t: nat, d: int, c: nat)
    requires t == d * 86400 + c && c < 86400 && d >= EPOCH / 86400 && c % 2 == 0
    ensures t / 86400 == d && t % 86400 == c && t % 2 == 0 && t >= EPOCH
  {
  }

  lemma SameDate(s: Stamp, r: Stamp)
    requires s.date < 0x1_0000 && r.date < 0x1_0000 && Year(s) == Year(r) && Month(s) == Month(r) && Day(s) == Day(r)
    ensures s.date == r.date
  {
    assert s.date / 32 / 16 == s.date / 512;
    assert r.date / 32 / 16 == r.date / 512;
  }
}
