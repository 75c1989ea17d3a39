/**
 Calendar arithmetic of the partition manager: epoch day number to civil date.

 The first half is the proleptic Gregorian calendar written down directly
 (4/100/400 leap rule, month lengths, sums of year lengths); the second half is
 the closed-form arithmetic the source uses. The lemmas show they agree on
 every integer day number, in both directions.
 */
module Calendar {
  import opened Prelude

  const SECS_PER_DAY := 86_400

  datatype Date = Date(year: int, month: int, day: int)

  // ----- the calendar itself ------------------------------------------------

  predicate IsLeap(y: int) {
    y % 4 == 0 && (y % 100 != 0 || y % 400 == 0)
  }

  function YearLength(y: int): int {
    if IsLeap(y) then 366 else 365
  }

  function DaysInMonth(y: int, m: int): int {
    if m == 2 then (if IsLeap(y) then 29 else 28)
    else if m == 4 || m == 6 || m == 9 || m == 11 then 30
    else 31
  }

  predicate ValidDate(d: Date) {
    1 <= d.month <= 12 && 1 <= d.day <= DaysInMonth(d.year, d.month)
  }

  /** The day after `d`. */
  function NextDate(d: Date): Date {
    if d.day < DaysInMonth(d.year, d.month) then Date(d.year, d.month, d.day + 1)
    else if d.month < 12 then Date(d.year, d.month + 1, 1)
    else Date(d.year + 1, 1, 1)
  }

  /** Days from 1970-01-01 to January 1st of year `y`, by adding up years. */
  function DaysBeforeYear(y: int): int
    decreases if y < 1970 then 1970 - y else y - 1970
  {
    if y == 1970 then 0
    else if y > 1970 then DaysBeforeYear(y - 1) + YearLength(y - 1)
    else DaysBeforeYear(y + 1) - YearLength(y)
  }

  /** Days from January 1st to the first of month `m`, by adding up months. */
  function DaysBeforeMonth(y: int, m: nat): int {
    if m <= 1 then 0 else DaysBeforeMonth(y, m - 1) + DaysInMonth(y, m - 1)
  }

  function DaysFromCivil(d: Date): int
    requires ValidDate(d)
  {
    DaysBeforeYear(d.year) + DaysBeforeMonth(d.year, d.month) + d.day - 1
  }

  /** Chronological order of dates, field by field. */
  predicate DateLess(a: Date, b: Date) {
    a.year < b.year
    || (a.year == b.year && (a.month < b.month || (a.month == b.month && a.day < b.day)))
  }

  // ----- the source's arithmetic --------------------------------------------

  /** Year of era from day of era; every subtraction is on unsigned values. */
  function YearOfEra(doe: nat): nat
    requires doe < 146_097
  {
    YearOfEraBounds(doe);
    var a: nat := doe - doe / 1460;
    var b: nat := a + doe / 36_524 - doe / 146_096;
    b / 365
  }

  /** Days of the era before March 1st of year-of-era `yoe`. */
  function MarchYearStart(yoe: nat): nat {
    365 * yoe + yoe / 4 - yoe / 100
  }

  /** Splits a day of the era into century, four-year cycle, year and day. */
  lemma SplitDayOfEra(doe: nat) returns (c: nat, q: nat, t: nat, u: nat)
    requires doe < 146_097
    ensures doe == 36_524 * c + 1461 * q + 365 * t + u
    ensures c <= 3 && q <= 24 && t <= 3 && u <= 365
    ensures u == 365 ==> t == 3 && (q == 24 ==> c == 3)
  {
    c := if doe < 36_524 then 0 else if doe < 73_048 then 1 else if doe < 109_572 then 2 else 3;
    var r := doe - 36_524 * c;
    q := r / 1461;
    var s := r % 1461;
    t := if s < 365 then 0 else if s < 730 then 1 else if s < 1095 then 2 else 3;
    u := s - 365 * t;
  }

  lemma YearOfEraBounds(doe: nat)
    requires doe < 146_097
    ensures doe - doe / 1460 >= 0
    ensures doe - doe / 1460 + doe / 36_524 - doe / 146_096 >= 0
    ensures var yoe := (doe - doe / 1460 + doe / 36_524 - doe / 146_096) / 365;
            && 0 <= yoe <= 399
            && 0 <= doe - MarchYearStart(yoe) <= 365
            && (doe - MarchYearStart(yoe) == 365 ==>
                  (yoe + 1) % 4 == 0 && ((yoe + 1) % 100 != 0 || yoe == 399))
  {
    var c, q, t, u := SplitDayOfEra(doe);
    YearOfEraParts(c, q, t, u);
  }

  lemma YearOfEraCorrect(doe: nat)
    requires doe < 146_097
    ensures var yoe := YearOfEra(doe);
            && yoe <= 399
            && 0 <= doe - MarchYearStart(yoe) <= 365
            && (doe - MarchYearStart(yoe) == 365 ==>
                  (yoe + 1) % 4 == 0 && ((yoe + 1) % 100 != 0 || yoe == 399))
  {
    YearOfEraBounds(doe);
  }

  lemma YearOfEraParts(c: nat, q: nat, t: nat, u: nat)
    requires c <= 3 && q <= 24 && t <= 3 && u <= 365
    requires u == 365 ==> t == 3 && (q == 24 ==> c == 3)
    ensures var doe := 36_524 * c + 1461 * q + 365 * t + u;
            var yoe := 100 * c + 4 * q + t;
            && doe - doe / 1460 + doe / 36_524 - doe / 146_096 >= 0
            && (doe - doe / 1460 + doe / 36_524 - doe / 146_096) / 365 == yoe
            && MarchYearStart(yoe) == doe - u
            && ((yoe + 1) % 4 == 0 <==> t == 3)
            && ((yoe + 1) % 100 == 0 <==> t == 3 && q == 24)
  {
    var doe := 36_524 * c + 1461 * q + 365 * t + u;
    var yoe := 100 * c + 4 * q + t;
    var e := if 24 * c + q + 365 * t + u >= 1460 then 1 else 0;
    LeapCorrections(c, q, t, u, e);
    assert doe - doe / 1460 + c == 365 * yoe + (u - e);
    YearParts(c, q, t);
  }

  lemma LeapCorrections(c: nat, q: nat, t: nat, u: nat, e: nat)
    requires c <= 3 && q <= 24 && t <= 3 && u <= 365
    requires u == 365 ==> t == 3 && (q == 24 ==> c == 3)
    requires e == if 24 * c + q + 365 * t + u >= 1460 then 1 else 0
    ensures var doe := 36_524 * c + 1461 * q + 365 * t + u;
            && doe / 1460 == 25 * c + q + e
            && doe / 36_524 - doe / 146_096 == c
            && e <= u <= 364 + e
  {
    var doe := 36_524 * c + 1461 * q + 365 * t + u;
    assert doe == 1460 * (25 * c + q + e) + (24 * c + q + 365 * t + u - 1460 * e);
  }

  lemma YearParts(c: nat, q: nat, t: nat)
    requires c <= 3 && q <= 24 && t <= 3
    ensures var yoe := 100 * c + 4 * q + t;
            && yoe / 4 == 25 * c + q && yoe / 100 == c
            && ((yoe + 1) % 4 == 0 <==> t == 3)
            && ((yoe + 1) % 100 == 0 <==> t == 3 && q == 24)
  {
  }

  /**
   Month and day of day `doy` of the year that starts on March 1st. All unsigned
   subtractions here and below are on `nat`, so none goes below zero.
   */
  function DateInMarchYear(y: int, doy: nat): Date
    requires doy <= 365
  {
    var mp := (5 * doy + 2) / 153;
    var d: nat := doy - (153 * mp + 2) / 5;
    var m: nat := if mp < 10 then mp + 3 else mp - 9;
    Date(if m <= 2 then y + 1 else y, m, d + 1)
  }

  /**
   Epoch day to civil date: shift to a March-based era, then split. The era
   division truncates, so negative numbers are pre-biased by 146_096.
   */
  function CivilFromDays(days: int): Date {
    var z := days + 719_468;
    var era := TruncDiv(if z >= 0 then z else z - 146_096, 146_097);
    var doe: nat := z - era * 146_097;
    YearOfEraCorrect(doe);
    var yoe := YearOfEra(doe);
    var doy: nat := doe - MarchYearStart(yoe);
    DateInMarchYear(yoe + era * 400, doy)
  }

  /** The computed date exists in the calendar and has the given day number. */
  lemma CivilFromDaysCorrect(days: int)
    ensures ValidDate(CivilFromDays(days))
    ensures DaysFromCivil(CivilFromDays(days)) == days
  {
    hide DateInMarchYear, DaysFromCivil, ValidDate, YearOfEra, MarchYearStart;
    var z := days + 719_468;
    var era := TruncDiv(if z >= 0 then z else z - 146_096, 146_097);
    var doe: nat := z - era * 146_097;
    YearOfEraCorrect(doe);
    var yoe := YearOfEra(doe);
    MarchDateIsCivil(era, yoe, doe - MarchYearStart(yoe));
  }

  /** `(y, m, d)` of a UTC midnight; the year is narrowed to 32 bits at the end. */
  function YmdFromEpoch(secs: int): Date {
    var civil := CivilFromDays(TruncDiv(secs, SECS_PER_DAY));
    civil.(year := WrapI32(civil.year))
  }

  // ----- sums in closed form ------------------------------------------------

  /** Leap years among years 1 to `y - 1`, extended to every integer. */
  function LeapsBefore(y: int): int {
    (y - 1) / 4 - (y - 1) / 100 + (y - 1) / 400
  }

  lemma DivStep4(x: int)
    ensures (x + 1) / 4 - x / 4 == if (x + 1) % 4 == 0 then 1 else 0
  {}

  lemma DivStep100(x: int)
    ensures (x + 1) / 100 - x / 100 == if (x + 1) % 100 == 0 then 1 else 0
  {}

  lemma DivStep400(x: int)
    ensures (x + 1) / 400 - x / 400 == if (x + 1) % 400 == 0 then 1 else 0
  {}

  lemma LeapsBeforeStep(y: int)
    ensures LeapsBefore(y + 1) - LeapsBefore(y) == if IsLeap(y) then 1 else 0
  {
    DivStep4(y - 1);
    DivStep100(y - 1);
    DivStep400(y - 1);
    CenturiesDivide(y);
  }

  lemma CenturiesDivide(y: int)
    ensures y % 100 == 0 ==> y % 4 == 0
    ensures y % 400 == 0 ==> y % 100 == 0
  {
    if y % 100 == 0 {
      HundredsAreFours(y / 100);
    }
    if y % 400 == 0 {
      FourHundredsAreHundreds(y / 400);
    }
  }

  lemma HundredsAreFours(q: int)
    ensures (100 * q) % 4 == 0
  {
    assert 100 * q == 4 * (25 * q);
  }

  lemma FourHundredsAreHundreds(q: int)
    ensures (400 * q) % 100 == 0
  {
    assert 400 * q == 100 * (4 * q);
  }

  lemma {:induction false} DaysBeforeYearClosed(y: int)
    ensures DaysBeforeYear(y) == 365 * (y - 1970) + LeapsBefore(y) - LeapsBefore(1970)
    decreases if y < 1970 then 1970 - y else y - 1970
  {
    if y > 1970 {
      DaysBeforeYearClosed(y - 1);
      LeapsBeforeStep(y - 1);
    } else if y < 1970 {
      DaysBeforeYearClosed(y + 1);
      LeapsBeforeStep(y);
    }
  }

  /** Cumulative month lengths, as a table. */
  function MonthTable(y: int, m: nat): int
    requires 1 <= m <= 13
  {
    var leap := if IsLeap(y) then 1 else 0;
    if m == 1 then 0 else if m == 2 then 31
    else leap + (if m == 3 then 59 else if m == 4 then 90 else if m == 5 then 120
                 else if m == 6 then 151 else if m == 7 then 181 else if m == 8 then 212
                 else if m == 9 then 243 else if m == 10 then 273 else if m == 11 then 304
                 else if m == 12 then 334 else 365)
  }

  lemma {:induction false} DaysBeforeMonthTable(y: int, m: nat)
    requires 1 <= m <= 13
    ensures DaysBeforeMonth(y, m) == MonthTable(y, m)
  {
    if m > 1 {
      DaysBeforeMonthTable(y, m - 1);
    }
  }

  /** March 1st of year `400 * era + yoe`, counted from the epoch. */
  lemma MarchFirst(era: int, yoe: nat)
    requires yoe <= 399
    ensures var y := 400 * era + yoe;
            && DaysBeforeYear(y) + (if IsLeap(y) then 60 else 59)
               == 146_097 * era + MarchYearStart(yoe) - 719_468
            && DaysBeforeYear(y + 1) == DaysBeforeYear(y) + (if IsLeap(y) then 366 else 365)
  {
    hide DaysBeforeYear, IsLeap;
    var y := 400 * era + yoe;
    DaysBeforeYearClosed(y);
    DaysBeforeYearClosed(y + 1);
    LeapsBeforeStep(y);
    LeapsBeforeEraYear(era, yoe);
  }

  /** Leap years up to and including year `400 * era + yoe`. */
  lemma LeapsBeforeEraYear(era: int, yoe: nat)
    requires yoe <= 399
    ensures LeapsBefore(400 * era + yoe + 1) == 97 * era + yoe / 4 - yoe / 100
  {
    var y := 400 * era + yoe;
    assert y / 400 == era;
    assert y / 4 == 100 * era + yoe / 4;
    assert y / 100 == 4 * era + yoe / 100;
  }

  lemma EraShift4(era: int, k: int)
    ensures (400 * era + k) % 4 == k % 4
  {
    assert 400 * era + k == 4 * (100 * era + k / 4) + k % 4;
  }

  lemma EraShift100(era: int, k: int)
    ensures (400 * era + k) % 100 == k % 100
  {
    assert 400 * era + k == 100 * (4 * era + k / 100) + k % 100;
  }

  lemma EraShift400(era: int, k: int)
    ensures (400 * era + k) % 400 == k % 400
  {}

  /** A leap day at the end of March-year `yoe` makes the next civil year leap. */
  lemma LeapAtYearEnd(era: int, yoe: nat)
    requires yoe <= 399
    requires (yoe + 1) % 4 == 0 && ((yoe + 1) % 100 != 0 || yoe == 399)
    ensures IsLeap(400 * era + yoe + 1)
  {
    EraShift4(era, yoe + 1);
    EraShift100(era, yoe + 1);
    EraShift400(era, yoe + 1);
  }

  /** The month and day split of a March-based year lands on the right civil date. */
  lemma MarchDateIsCivil(era: int, yoe: nat, doy: nat)
    requires yoe <= 399 && doy <= 365
    requires doy == 365 ==> (yoe + 1) % 4 == 0 && ((yoe + 1) % 100 != 0 || yoe == 399)
    ensures var r := DateInMarchYear(yoe + era * 400, doy);
            && ValidDate(r)
            && DaysFromCivil(r) == 146_097 * era + MarchYearStart(yoe) + doy - 719_468
  {
    hide DaysBeforeYear, DaysBeforeMonth, MarchYearStart;
    var r := DateInMarchYear(yoe + era * 400, doy);
    MarchFirst(era, yoe);
    DaysBeforeMonthTable(r.year, r.month);
    if doy == 365 {
      LeapAtYearEnd(era, yoe);
    }
  }

  // ----- the bijection ------------------------------------------------------

  lemma {:induction false} YearsGrow(a: int, b: int)
    requires a < b
    ensures DaysBeforeYear(a) + YearLength(a) <= DaysBeforeYear(b)
    decreases b - a
  {
    if a + 1 < b {
      YearsGrow(a, b - 1);
    }
    DaysBeforeYearClosed(b - 1);
    DaysBeforeYearClosed(b);
    LeapsBeforeStep(b - 1);
  }

  /** Counting days preserves chronological order. */
  lemma DayNumberMonotone(a: Date, b: Date)
    requires ValidDate(a) && ValidDate(b) && DateLess(a, b)
    ensures DaysFromCivil(a) < DaysFromCivil(b)
  {
    DaysBeforeMonthTable(a.year, a.month);
    DaysBeforeMonthTable(b.year, b.month);
    if a.year < b.year {
      YearsGrow(a.year, b.year);
    }
  }

  /** `CivilFromDays` inverts `DaysFromCivil` on every valid date. */
  lemma CivilInvertsDayNumber(d: Date)
    requires ValidDate(d)
    ensures CivilFromDays(DaysFromCivil(d)) == d
  {
    var r := CivilFromDays(DaysFromCivil(d));
    CivilFromDaysCorrect(DaysFromCivil(d));
    if DateLess(d, r) {
      DayNumberMonotone(d, r);
    } else if DateLess(r, d) {
      DayNumberMonotone(r, d);
    }
  }

  /** Later days have later dates, and the other way round. */
  lemma DateOrderIsDayOrder(m: int, n: int)
    ensures m < n <==> DateLess(CivilFromDays(m), CivilFromDays(n))
  {
    var a, b := CivilFromDays(m), CivilFromDays(n);
    CivilFromDaysCorrect(m);
    CivilFromDaysCorrect(n);
    if DateLess(a, b) {
      DayNumberMonotone(a, b);
    } else if DateLess(b, a) {
      DayNumberMonotone(b, a);
    }
  }

  /** Stepping to the next date adds one to the day number. */
  lemma NextDateNumber(d: Date)
    requires ValidDate(d)
    ensures ValidDate(NextDate(d)) && DaysFromCivil(NextDate(d)) == DaysFromCivil(d) + 1
  {
    var next := NextDate(d);
    DaysBeforeMonthTable(d.year, d.month);
    DaysBeforeMonthTable(next.year, next.month);
    if next.year != d.year {
      DaysBeforeYearClosed(d.year);
      DaysBeforeYearClosed(d.year + 1);
      LeapsBeforeStep(d.year);
    }
  }

  /** The one date with day number `n` is the one computed. */
  lemma CivilIsUnique(d: Date, n: int)
    requires ValidDate(d) && DaysFromCivil(d) == n
    ensures CivilFromDays(n) == d
  {
    CivilInvertsDayNumber(d);
  }

  /** Each day number is followed by the next date of the calendar. */
  lemma CivilFollowsCalendar(n: int)
    ensures CivilFromDays(n + 1) == NextDate(CivilFromDays(n))
  {
    var d := CivilFromDays(n);
    CivilFromDaysCorrect(n);
    NextDateNumber(d);
    CivilIsUnique(NextDate(d), n + 1);
  }

  /** Day number of January 1st of year `y`. */
  function NewYear(y: int): int {
    365 * (y - 1970) + LeapsBefore(y) - LeapsBefore(1970)
  }

  /** A day lies in year `y` or later exactly when it is not before its New Year. */
  lemma YearBoundary(y: int, n: int)
    ensures CivilFromDays(n).year >= y <==> n >= NewYear(y)
  {
    hide CivilFromDays;
    var d := CivilFromDays(n);
    CivilFromDaysCorrect(n);
    DaysBeforeYearClosed(y);
    DaysBeforeMonthTable(d.year, d.month);
    if d.year < y {
      YearsGrow(d.year, y);
    } else if d.year > y {
      YearsGrow(y, d.year);
    }
  }

  lemma WrapI32Exact(x: int)
    ensures WrapI32(x) == x <==> -0x8000_0000 <= x < 0x8000_0000
  {
    if 0 <= x < 0x8000_0000 {
      assert x % TWO_32 == x;
    } else if -0x8000_0000 <= x < 0 {
      assert x % TWO_32 == x + TWO_32;
    }
  }

  lemma MidnightDay(n: int)
    ensures TruncDiv(n * SECS_PER_DAY, SECS_PER_DAY) == n
  {}

  /** On midnights the 32-bit year is exact precisely when the true year fits. */
  lemma YmdExactIffYearFits(n: int)
    ensures YmdFromEpoch(n * SECS_PER_DAY) == CivilFromDays(n)
       <==> -0x8000_0000 <= CivilFromDays(n).year < 0x8000_0000
  {
    MidnightDay(n);
    WrapI32Exact(CivilFromDays(n).year);
  }
}
