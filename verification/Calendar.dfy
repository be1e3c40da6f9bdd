/**
 Calendar arithmetic: Julian dates of years and dates, the calendar date of a Julian date, and the
 epoch field of two-line element sets. Decimal constants are exact rationals.
 */
module Calendar {
  import opened Basics

  datatype Date = Date(year: int, month: int, day: int)

  /** Integer division that truncates toward zero. */
  function Quot(a: int, b: int): int
    requires b > 0
  {
    if a >= 0 then a / b else -((-a) / b)
  }

  function Frac(x: real): (f: real)
    ensures 0.0 <= f < 1.0
  {
    x - x.Floor as real
  }

  function Round(x: real): int {
    (x + 0.5).Floor
  }

  predicate IsLeap(y: int) {
    y % 4 == 0 && (y % 100 != 0 || y % 400 == 0)
  }

  function MonthLength(y: int, m: int): int {
    if m == 2 then (if IsLeap(y) then 29 else 28) else if m == 4 || m == 6 || m == 9 || m == 11 then 30 else 31
  }

  predicate ValidDate(d: Date) {
    1 <= d.year && 1 <= d.month <= 12 && 1 <= d.day <= MonthLength(d.year, d.month)
  }

  // ---- Day of the year ----

  /** Days in the months of year `y` before month `m`. */
  function DaysBefore(y: int, m: int): int
    requires 1 <= m <= 13
    decreases m
  {
    if m == 1 then 0 else DaysBefore(y, m - 1) + MonthLength(y, m - 1)
  }

  /** Day of the year, counted month by month. */
  function DayOfYear(y: int, m: int, d: int): int
    requires 1 <= m <= 12
  {
    DaysBefore(y, m) + d
  }

  lemma DaysBeforeTable(y: int)
    ensures DaysBefore(y, 1) == 0 && DaysBefore(y, 2) == 31
    ensures var leap := if IsLeap(y) then 1 else 0;
      && DaysBefore(y, 3) == 59 + leap && DaysBefore(y, 4) == 90 + leap && DaysBefore(y, 5) == 120 + leap
      && DaysBefore(y, 6) == 151 + leap && DaysBefore(y, 7) == 181 + leap && DaysBefore(y, 8) == 212 + leap
      && DaysBefore(y, 9) == 243 + leap && DaysBefore(y, 10) == 273 + leap && DaysBefore(y, 11) == 304 + leap
      && DaysBefore(y, 12) == 334 + leap && DaysBefore(y, 13) == 365 + leap
  {
    assert DaysBefore(y, 3) == DaysBefore(y, 2) + MonthLength(y, 2);
    assert DaysBefore(y, 4) == DaysBefore(y, 3) + MonthLength(y, 3);
    assert DaysBefore(y, 5) == DaysBefore(y, 4) + MonthLength(y, 4);
    assert DaysBefore(y, 6) == DaysBefore(y, 5) + MonthLength(y, 5);
    assert DaysBefore(y, 7) == DaysBefore(y, 6) + MonthLength(y, 6);
    assert DaysBefore(y, 8) == DaysBefore(y, 7) + MonthLength(y, 7);
    assert DaysBefore(y, 9) == DaysBefore(y, 8) + MonthLength(y, 8);
    assert DaysBefore(y, 10) == DaysBefore(y, 9) + MonthLength(y, 9);
    assert DaysBefore(y, 11) == DaysBefore(y, 10) + MonthLength(y, 10);
    assert DaysBefore(y, 12) == DaysBefore(y, 11) + MonthLength(y, 11);
    assert DaysBefore(y, 13) == DaysBefore(y, 12) + MonthLength(y, 12);
  }

  /** The table loop with its leap-year correction counts the days month by month. */
  method DoY(yr: int, mo: int, dy: int) returns (day: int)
    requires 1 <= mo <= 12
    ensures day == DayOfYear(yr, mo, dy)
  {
    var days := [31, 28, 31, 30, 31, 30, 31, 31, 30, 31, 30, 31];
    day := 0;
    for i := 0 to mo - 1
      invariant day == DaysBefore(yr, i + 1) - if IsLeap(yr) && i >= 2 then 1 else 0
    {
      day := day + days[i];
    }
    day := day + dy;
    if yr % 4 == 0 && (yr % 100 != 0 || yr % 400 == 0) && mo > 2 {
      day := day + 1;
    }
  }

  // ---- Julian date of a year, and the direct day-number formula ----

  /** Julian date of day 0.0 of a year. */
  function JulianDateOfYear(year: int): real {
    var y := (year - 1) as real;
    var a := Trunc(y / 100.0);
    var b := 2 - a + Quot(a, 4);
    (Trunc(365.25 * y) + Trunc(30.6001 * 14.0)) as real + 1720994.5 + b as real
  }

  function JulianDate(d: Date): real
    requires 1 <= d.month <= 12
  {
    JulianDateOfYear(d.year) + DayOfYear(d.year, d.month, d.day) as real
  }

  /** The day-number formula behind the --t0 option. */
  function DayNumber(y: int, m: int, d: int): int {
    var a := Quot(14 - m, 12);
    var yy := y + 4800 - a;
    var mm := m + 12 * a - 3;
    d + Quot(153 * mm + 2, 5) + 365 * yy + Quot(yy, 4) - Quot(yy, 100) + Quot(yy, 400) - 32045
  }

  /** Whole days before a year in the Gregorian calendar, counted from year 1. */
  function GregorianDays(y: int): int {
    365 * (y - 1) + (y - 1) / 4 - (y - 1) / 100 + (y - 1) / 400
  }

  lemma YearFormula(year: int)
    requires 1 <= year
    ensures JulianDateOfYear(year) == GregorianDays(year) as real + 1721424.5
  {
    var y := year - 1;
    assert Trunc(y as real / 100.0) == y / 100;
    assert Trunc(365.25 * y as real) == 365 * y + y / 4;
    assert (y / 100) / 4 == y / 400;
  }

  lemma LeapCount(y: int)
    ensures y / 4 == (y - 1) / 4 + if y % 4 == 0 then 1 else 0
    ensures y / 100 == (y - 1) / 100 + if y % 100 == 0 then 1 else 0
    ensures y / 400 == (y - 1) / 400 + if y % 400 == 0 then 1 else 0
  {
  }

  lemma NextYear(y: int)
    ensures GregorianDays(y + 1) == GregorianDays(y) + if IsLeap(y) then 366 else 365
  {
    LeapCount(y);
    Multiples(y);
  }

  lemma Multiples(y: int)
    ensures y % 400 == 0 ==> y % 100 == 0
    ensures y % 100 == 0 ==> y % 4 == 0
  {
  }

  /** Consecutive years are 365 or 366 days apart, by the leap rule. */
  lemma YearLength(year: int)
    requires 1 <= year
    ensures JulianDateOfYear(year + 1) - JulianDateOfYear(year) == if IsLeap(year) then 366.0 else 365.0
  {
    YearFormula(year);
    YearFormula(year + 1);
    NextYear(year);
  }

  lemma CivilYear(y: int)
    requires 1 <= y
    ensures Quot(y + 4800, 4) == y / 4 + 1200 && Quot(y + 4800, 100) == y / 100 + 48
    ensures Quot(y + 4800, 400) == y / 400 + 12
    ensures Quot(y + 4799, 4) == (y - 1) / 4 + 1200 && Quot(y + 4799, 100) == (y - 1) / 100 + 48
    ensures Quot(y + 4799, 400) == (y - 1) / 400 + 12
  {
  }

  // Years and months counted from March, which puts the leap day last.

  /** Days before a month, counted from March. */
  function MonthOffset(e: int): int {
    (30.6001 * e as real).Floor
  }

  lemma MonthOffsets()
    ensures MonthOffset(4) == 122 && MonthOffset(5) == 153 && MonthOffset(6) == 183 && MonthOffset(7) == 214
    ensures MonthOffset(8) == 244 && MonthOffset(9) == 275 && MonthOffset(10) == 306 && MonthOffset(11) == 336
    ensures MonthOffset(12) == 367 && MonthOffset(13) == 397 && MonthOffset(14) == 428 && MonthOffset(15) == 459
  {
  }

  lemma MonthShift(y: int, m: int)
    requires 1 <= m <= 12
    ensures m <= 2 ==>
      DaysBefore(y, m) == MonthOffset(m + 13) - 428 && Quot(153 * (m + 9) + 2, 5) == MonthOffset(m + 13) - 122
    ensures m > 2 ==>
      && DaysBefore(y, m) == MonthOffset(m + 1) - 63 + (if IsLeap(y) then 1 else 0)
      && Quot(153 * (m - 3) + 2, 5) == MonthOffset(m + 1) - 122
  {
    DaysBeforeTable(y);
    MonthOffsets();
    assert m in {1, 2, 3, 4, 5, 6, 7, 8, 9, 10, 11, 12};
  }

  lemma DayNumberFormula(y: int, m: int, d: int)
    requires 1 <= y && 1 <= m <= 12
    ensures DayNumber(y, m, d) == GregorianDays(y) + DayOfYear(y, m, d) + 1721425
  {
    MonthShift(y, m);
    CivilYear(y);
    if m <= 2 {
      assert Quot(14 - m, 12) == 1;
    } else {
      assert Quot(14 - m, 12) == 0;
      NextYear(y);
      assert GregorianDays(y + 1) == 365 * y + y / 4 - y / 100 + y / 400;
    }
  }

  /** At midnight the --t0 formula gives the library's Julian date. */
  lemma DayNumberAgrees(y: int, m: int, d: int)
    requires 1 <= y && 1 <= m <= 12
    ensures DayNumber(y, m, d) as real - 0.5 == JulianDate(Date(y, m, d))
  {
    YearFormula(y);
    DayNumberFormula(y, m, d);
  }

  // ---- Calendar date of a Julian date ----

  /** Half a millisecond, in days. */
  const HALF_MS := 0.5 / 86400.0 / 1000.0

  /** First day number of the Gregorian calendar, 1582 October 15. */
  const GREGORIAN_START := 2299161

  /** Day count with the Gregorian century correction taken out. */
  function JulianCount(z: int): int {
    if z < GREGORIAN_START then z
    else
      var alpha := ((z as real - 1867216.25) / 36524.25).Floor;
      z + 1 + alpha - (alpha as real / 4.0).Floor
  }

  /** The calendar date of a Julian date, as the library computes it. */
  function CalendarDate(jd: real): Date {
    var rolls := Frac(jd + 0.5) + HALF_MS >= 1.0;
    var f := if rolls then 0.0 else Frac(jd + 0.5);
    var z := Round(if rolls then jd + HALF_MS else jd);
    Decode(z, f)
  }

  /** Year, month and day from a day number and the fraction of the day gone. */
  function Decode(z: int, f: real): Date {
    var b := (JulianCount(z) + 1524) as real;
    var c := ((b - 122.1) / 365.25).Floor;
    var d := (365.25 * c as real).Floor as real;
    var e := ((b - d) / 30.6001).Floor;
    var day := b - d - (30.6001 * e as real).Floor as real + f;
    var month := if e as real < 13.5 then Round((e - 1) as real) else Round((e - 13) as real);
    var year := if month as real > 2.5 then c - 4716 else c - 4715;
    Date(year, month, day.Floor)
  }

  /** The civil day number of a date: its Julian date at noon. */
  function DayOf(d: Date): int
    requires 1 <= d.month <= 12
  {
    GregorianDays(d.year) + DayOfYear(d.year, d.month, d.day) + 1721425
  }

  lemma JulianDateIsDay(d: Date)
    requires 1 <= d.year && 1 <= d.month <= 12
    ensures JulianDate(d) == DayOf(d) as real - 0.5
  {
    YearFormula(d.year);
  }

  function MarchYear(d: Date): int {
    if d.month > 2 then d.year else d.year - 1
  }

  function MarchMonth(d: Date): int {
    if d.month > 2 then d.month + 1 else d.month + 13
  }

  /** Days before a year of the Julian calendar, counted from -4716. */
  function JulianYearDays(c: int): int {
    (365.25 * c as real).Floor
  }

  /** Day count of a date as if every fourth year were leap. */
  function DateCount(d: Date): int {
    JulianYearDays(MarchYear(d) + 4716) + MonthOffset(MarchMonth(d)) + d.day
  }

  /** How far the Gregorian count lags behind the Julian one in a century. */
  function CenturyLag(century: int): int {
    century - century / 4 - 2
  }

  lemma JulianYearDaysFormula(c: int)
    ensures JulianYearDays(c) == 365 * c + c / 4
  {
  }

  /** The day number of a date is its every-fourth-year count less the century lag. */
  lemma CountOfDate(d: Date)
    requires ValidDate(d)
    ensures DayOf(d) == DateCount(d) - 1524 - CenturyLag(MarchYear(d) / 100)
  {
    var y := d.year;
    MonthShift(y, d.month);
    JulianYearDaysFormula(MarchYear(d) + 4716);
    if d.month <= 2 {
      assert ((y - 1) / 100) / 4 == (y - 1) / 400;
    } else {
      NextYear(y);
      assert GregorianDays(y + 1) == 365 * y + y / 4 - y / 100 + y / 400;
      assert (y / 100) / 4 == y / 400;
    }
  }

  lemma FloorIs(x: real, n: int)
    requires n as real <= x < n as real + 1.0
    ensures x.Floor == n
  {
  }

  /** Where a valid date falls in its March-based year: the day offset fits between two month offsets. */
  lemma OffsetRange(d: Date)
    requires ValidDate(d)
    ensures var e := MonthOffset(MarchMonth(d)) + d.day;
      && 123 <= e <= 488
      && 30.6001 * MarchMonth(d) as real <= e as real < 30.6001 * (MarchMonth(d) + 1) as real
      && (e == 488 ==> d.month == 2 && IsLeap(d.year))
  {
    MonthOffsets();
    assert d.month in {1, 2, 3, 4, 5, 6, 7, 8, 9, 10, 11, 12};
  }

  /** The year part of the inverse: dividing by 365.25 finds the March-based year. */
  lemma YearFromCount(d: Date)
    requires ValidDate(d)
    ensures ((DateCount(d) as real - 122.1) / 365.25).Floor == MarchYear(d) + 4716
  {
    var k := MarchYear(d) + 4716;
    JulianYearDaysFormula(k);
    OffsetRange(d);
    var e := MonthOffset(MarchMonth(d)) + d.day;
    if e == 488 {
      assert k == d.year + 4715 && d.year % 4 == 0;
    }
    var x := DateCount(d) as real - 122.1;
    assert 4 * (k / 4) + k % 4 == k;
    assert x == 365.25 * k as real - 0.25 * (k % 4) as real + e as real - 122.1;
    assert k as real * 365.25 <= x < (k + 1) as real * 365.25;
    FloorIs(x / 365.25, k);
  }

  /** The month part of the inverse: dividing by 30.6001 finds the March-based month. */
  lemma MonthFromCount(d: Date)
    requires ValidDate(d)
    ensures var e := (MonthOffset(MarchMonth(d)) + d.day) as real;
      (e / 30.6001).Floor == MarchMonth(d)
  {
    OffsetRange(d);
    FloorIs((MonthOffset(MarchMonth(d)) + d.day) as real / 30.6001, MarchMonth(d));
  }

  /** The century part of the inverse: dividing by 36524.25 finds the March-based century. */
  lemma CenturyFromDay(d: Date)
    requires ValidDate(d)
    ensures ((DayOf(d) as real - 1867216.25) / 36524.25).Floor == MarchYear(d) / 100 - 4
  {
    var y := MarchYear(d);
    var c, s := y / 100, y % 100;
    var e := MonthOffset(MarchMonth(d)) + d.day;
    CenturyRemainder(d, c, s, e);
    FloorIs((DayOf(d) as real - 1867216.25) / 36524.25, c - 4);
  }

  lemma CenturyArithmetic(c: int, s: int, e: int, z: int)
    requires 0 <= s < 100 && 123 <= e <= 488 && (e == 488 && s == 99 ==> c % 4 == 3)
    requires z == 365 * (100 * c + s + 4716) + (25 * c + s / 4 + 1179) + e - 1524 - (c - c / 4 - 2)
    ensures 146097 * (c - 4) <= 4 * z - 7468865 < 146097 * (c - 3)
  {
    assert 4 * z - 7468865 == 146097 * (c - 4) + 4 * (365 * s + s / 4 + e - 123) + 3 - c % 4;
    assert s / 4 <= 24;
  }

  lemma CenturyRemainder(d: Date, c: int, s: int, e: int)
    requires ValidDate(d) && c == MarchYear(d) / 100 && s == MarchYear(d) % 100
    requires e == MonthOffset(MarchMonth(d)) + d.day
    ensures 146097 * (c - 4) <= 4 * DayOf(d) - 7468865 < 146097 * (c - 3)
  {
    var y := MarchYear(d);
    CountOfDate(d);
    OffsetRange(d);
    JulianYearDaysFormula(y + 4716);
    assert y == 100 * c + s;
    assert (y + 4716) / 4 == 25 * c + s / 4 + 1179;
    if e == 488 && s == 99 {
      LeapCentury(d.year, c);
    }
    CenturyArithmetic(c, s, e, DayOf(d));
  }

  lemma LeapCentury(year: int, c: int)
    requires IsLeap(year) && year == 100 * (c + 1)
    ensures c % 4 == 3
  {
    assert year % 100 == 0;
  }

  lemma DecodeInverts(d: Date, z: int, f: real)
    requires ValidDate(d) && 0.0 <= f < 1.0
    requires JulianCount(z) + 1524 == DateCount(d)
    ensures Decode(z, f) == d
  {
    YearFromCount(d);
    MonthFromCount(d);
    var k, e := MarchYear(d) + 4716, MarchMonth(d);
    assert DateCount(d) as real - JulianYearDays(k) as real == (MonthOffset(e) + d.day) as real;
    FloorIs(d.day as real + f, d.day);
  }

  lemma DecodeDetermines(d: Date, z: int, f: real)
    requires ValidDate(d) && 0.0 <= f < 1.0
    requires Decode(z, f) == d
    ensures JulianCount(z) + 1524 == DateCount(d)
  {
    var b := JulianCount(z) + 1524;
    var c := ((b as real - 122.1) / 365.25).Floor;
    var e := ((b - JulianYearDays(c)) as real / 30.6001).Floor;
    assert 122.1 <= (b - JulianYearDays(c)) as real < 488.2;
    assert 4 <= e <= 15;
    assert e == MarchMonth(d) && c == MarchYear(d) + 4716;
    FloorIs((b - JulianYearDays(c) - MonthOffset(e)) as real + f, b - JulianYearDays(c) - MonthOffset(e));
  }

  /** The day after a date. */
  function NextDate(d: Date): Date
    requires ValidDate(d)
  {
    if d.day < MonthLength(d.year, d.month) then d.(day := d.day + 1)
    else if d.month < 12 then Date(d.year, d.month + 1, 1)
    else Date(d.year + 1, 1, 1)
  }

  lemma NextYearDay(y: int)
    ensures DayOf(Date(y + 1, 1, 1)) == DayOf(Date(y, 12, 31)) + 1
  {
    assert DayOfYear(y, 12, 31) == 365 + (if IsLeap(y) then 1 else 0) by { DaysBeforeTable(y); }
    NextYear(y);
    assert DayOfYear(y + 1, 1, 1) == 1;
  }

  lemma NextMonthDay(y: int, m: int)
    requires 1 <= m < 12
    ensures DayOf(Date(y, m + 1, 1)) == DayOf(Date(y, m, MonthLength(y, m))) + 1
  {
    assert DaysBefore(y, m + 1) == DaysBefore(y, m) + MonthLength(y, m);
  }

  lemma NextDateIsNextDay(d: Date)
    requires ValidDate(d)
    ensures ValidDate(NextDate(d)) && DayOf(NextDate(d)) == DayOf(d) + 1
  {
    if d.day == MonthLength(d.year, d.month) {
      if d.month < 12 {
        NextMonthDay(d.year, d.month);
      } else {
        NextYearDay(d.year);
      }
    }
  }

  lemma GregorianDecode(d: Date, f: real)
    requires ValidDate(d) && 0.0 <= f < 1.0 && DayOf(d) >= GREGORIAN_START
    ensures Decode(DayOf(d), f) == d
  {
    CenturyFromDay(d);
    CountOfDate(d);
    var c := MarchYear(d) / 100;
    FloorIs((c - 4) as real / 4.0, c / 4 - 1);
    DecodeInverts(d, DayOf(d), f);
  }

  /** In the last half millisecond of a day. */
  predicate Rolls(f: real) {
    f + HALF_MS >= 1.0
  }

  lemma CalendarDateDecodes(d: Date, f: real)
    requires 1 <= d.year && 1 <= d.month <= 12 && 0.0 <= f < 1.0
    ensures CalendarDate(JulianDate(d) + f) == if Rolls(f) then Decode(DayOf(d) + 1, 0.0) else Decode(DayOf(d), f)
  {
    JulianDateIsDay(d);
    FloorIs(DayOf(d) as real + f, DayOf(d));
    if Rolls(f) {
      FloorIs(DayOf(d) as real + f + HALF_MS, DayOf(d) + 1);
    }
  }

  /**
   For every date from 1582 October 15 on, with no upper bound on the year, the calendar date of a
   moment is the date it was made from, except in the last half millisecond of the day, where it is
   the following date.
   */
  lemma CalendarDateInverts(d: Date, f: real)
    requires ValidDate(d) && 0.0 <= f < 1.0 && DayOf(d) >= GREGORIAN_START
    ensures CalendarDate(JulianDate(d) + f) == if Rolls(f) then NextDate(d) else d
  {
    if Rolls(f) {
      NextDateIsNextDay(d);
      GregorianDecode(NextDate(d), 0.0);
    } else {
      GregorianDecode(d, f);
    }
    CalendarDateDecodes(d, f);
  }

  /** Rolling over from 1582 October 14 lands on the first Gregorian day, and the lag there is not one day. */
  lemma SwitchDay(d: Date)
    requires ValidDate(d) && DayOf(d) + 1 == GREGORIAN_START
    ensures Decode(GREGORIAN_START, 0.0) != d && CenturyLag(MarchYear(d) / 100) == 10
  {
    NextDateIsNextDay(d);
    GregorianDecode(NextDate(d), 0.0);
    CenturyFromDay(d);
    FloorIs((DayOf(d) as real - 1867216.25) / 36524.25, 11);
  }

  /**
   Before that day the inverse switches to the Julian calendar while the forward direction stays
   Gregorian: the date comes back exactly when the century lag equals the roll-over.
   */
  lemma EarlyDatesInvertIff(d: Date, f: real)
    requires ValidDate(d) && 0.0 <= f < 1.0 && DayOf(d) < GREGORIAN_START
    ensures CalendarDate(JulianDate(d) + f) == d
       <==> CenturyLag(MarchYear(d) / 100) == if Rolls(f) then 1 else 0
  {
    CalendarDateDecodes(d, f);
    CountOfDate(d);
    var z, g := if Rolls(f) then DayOf(d) + 1 else DayOf(d), if Rolls(f) then 0.0 else f;
    if z == GREGORIAN_START {
      SwitchDay(d);
    } else if CenturyLag(MarchYear(d) / 100) == if Rolls(f) then 1 else 0 {
      DecodeInverts(d, z, g);
    } else if Decode(z, g) == d {
      DecodeDetermines(d, z, g);
    }
  }

  // ---- The epoch field of a two-line element set ----

  /** Julian date of an epoch field YYDDD.dddddddd. */
  function JulianDateOfEpoch(epoch: real): real {
    var yy := Trunc(epoch * 0.001);
    var day := (epoch * 0.001 - yy as real) * 1000.0;
    JulianDateOfYear(if yy < 57 then yy + 2000 else yy + 1900) + day
  }

  /** Epoch field of a Julian date. */
  function EpochTime(jd: real): real
    requires 1 <= CalendarDate(jd).month <= 12
  {
    var d := CalendarDate(jd);
    EpochField(d.year, DayOfYear(d.year, d.month, d.day) as real + Frac(jd + 0.5))
  }

  /** Two-digit year and day of the year, as the state-vector tool writes them for a moment of a year. */
  function EpochField(year: int, epochDay: real): real {
    (year - 100 * Quot(year, 100)) as real * 1000.0 + epochDay
  }

  lemma TwoDigits(year: int)
    requires 1957 <= year <= 2056
    ensures var yy := year - 100 * Quot(year, 100); 0 <= yy < 100 && year == if yy < 57 then yy + 2000 else yy + 1900
  {
    assert year / 100 == if year < 2000 then 19 else 20;
  }

  lemma FieldParts(yy: int, day: real, field: real)
    requires 0 <= yy && 0.0 <= day < 1000.0 && field == yy as real * 1000.0 + day
    ensures Trunc(field * 0.001) == yy && (field * 0.001 - yy as real) * 1000.0 == day
  {
    assert field * 0.001 == yy as real + day * 0.001;
    FloorIs(field * 0.001, yy);
  }

  /** Reading back the field gives the Julian date that was computed directly. */
  lemma EpochFieldReadsBack(year: int, epochDay: real)
    requires 1957 <= year <= 2056 && 0.0 <= epochDay < 1000.0
    ensures JulianDateOfEpoch(EpochField(year, epochDay)) == JulianDateOfYear(year) + epochDay
  {
    var yy := year - 100 * Quot(year, 100);
    TwoDigits(year);
    FieldParts(yy, epochDay, EpochField(year, epochDay));
  }

  lemma EpochTimeOfMoment(d: Date, f: real, jd: real)
    requires ValidDate(d) && 0.0 <= f < 1.0 && DayOf(d) >= GREGORIAN_START
    requires jd == JulianDate(d) + f
    ensures var e := if Rolls(f) then NextDate(d) else d;
      && 1 <= e.month <= 12 && CalendarDate(jd) == e
      && EpochTime(jd) == EpochField(e.year, DayOfYear(e.year, e.month, e.day) as real + f)
  {
    NextDateIsNextDay(d);
    CalendarDateInverts(d, f);
    FractionOfMoment(d, f);
    EpochTimeFrom(jd, if Rolls(f) then NextDate(d) else d, f);
  }

  lemma EpochTimeFrom(jd: real, e: Date, f: real)
    requires CalendarDate(jd) == e && 1 <= e.month <= 12 && Frac(jd + 0.5) == f
    ensures EpochTime(jd) == EpochField(e.year, DayOfYear(e.year, e.month, e.day) as real + f)
  {
  }

  lemma FractionOfMoment(d: Date, f: real)
    requires 1 <= d.year && 1 <= d.month <= 12 && 0.0 <= f < 1.0
    ensures Frac(JulianDate(d) + f + 0.5) == f
  {
    JulianDateIsDay(d);
    FloorIs(DayOf(d) as real + f, DayOf(d));
  }

  lemma FieldMoment(d: Date, f: real)
    requires ValidDate(d) && 1957 <= d.year <= 2056 && 0.0 <= f < 1.0
    ensures DayOf(d) >= GREGORIAN_START
    ensures JulianDateOfEpoch(EpochField(d.year, DayOfYear(d.year, d.month, d.day) as real + f)) == JulianDate(d) + f
  {
    var doy := DayOfYear(d.year, d.month, d.day);
    assert 1 <= doy <= 366 by { MonthLengthWithinYear(d); }
    assert DayOf(d) >= GREGORIAN_START by { assert GregorianDays(d.year) >= 365 * 1956; }
    EpochFieldReadsBack(d.year, doy as real + f);
  }

  /**
   Converting back to a field recovers it, except in the last half millisecond of a day: the date has
   moved on but the fraction has not been reset, so the field is that of the next date with the old
   fraction.
   */
  lemma EpochTimeInverts(d: Date, f: real, jd: real)
    requires ValidDate(d) && 1957 <= d.year <= 2056 && 0.0 <= f < 1.0
    requires jd == JulianDateOfEpoch(EpochField(d.year, DayOfYear(d.year, d.month, d.day) as real + f))
    ensures var e := if Rolls(f) then NextDate(d) else d;
      && 1 <= e.month <= 12 && CalendarDate(jd) == e
      && EpochTime(jd) == EpochField(e.year, DayOfYear(e.year, e.month, e.day) as real + f)
  {
    FieldMoment(d, f);
    EpochTimeOfMoment(d, f, jd);
  }

  lemma MonthLengthWithinYear(d: Date)
    requires ValidDate(d)
    ensures 1 <= DayOfYear(d.year, d.month, d.day) <= if IsLeap(d.year) then 366 else 365
  {
    DaysBeforeTable(d.year);
    assert d.month in {1, 2, 3, 4, 5, 6, 7, 8, 9, 10, 11, 12};
  }

  /** Within a year the roll-over makes the field exactly one day too large. */
  lemma RolledFieldIsOneDayLate(d: Date, f: real, field: real)
    requires ValidDate(d) && 1957 <= d.year <= 2056 && 0.0 <= f < 1.0 && Rolls(f)
    requires !(d.month == 12 && d.day == 31)
    requires field == EpochField(d.year, DayOfYear(d.year, d.month, d.day) as real + f)
    ensures 1 <= CalendarDate(JulianDateOfEpoch(field)).month <= 12
    ensures EpochTime(JulianDateOfEpoch(field)) == field + 1.0
  {
    var jd := JulianDateOfEpoch(field);
    EpochTimeInverts(d, f, jd);
    var e := NextDate(d);
    assert e.year == d.year;
    assert DayOfYear(e.year, e.month, e.day) == DayOfYear(d.year, d.month, d.day) + 1 by { NextDateIsNextDay(d); }
  }
}
