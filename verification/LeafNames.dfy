/**
 Names of the daily partitions. The retention sweep compares them as strings,
 so this module relates byte-wise order of names to order of days.
 */
module LeafNames {
  import opened Prelude
  import opened Calendar

  const LEAF_PREFIX := "events_raw_p"

  /** Byte-wise order of (ASCII) strings, a proper prefix being smaller. */
  predicate StrLess(a: string, b: string) {
    b != "" && (a == "" || a[0] < b[0] || (a[0] == b[0] && StrLess(a[1..], b[1..])))
  }

  predicate StartsWith(s: string, p: string) {
    p <= s
  }

  /** `n` in decimal, filled with zeros to at least `width` characters. */
  function ZeroFilled(n: nat, width: nat): string {
    if width == 0 then Digits(n) else ZeroFilled(n / 10, width - 1) + [DigitChar(n % 10)]
  }

  /** The formatting `{n:0width}`: the sign counts toward the width. */
  function Formatted(n: int, width: nat): string
    requires width >= 1
  {
    if n >= 0 then ZeroFilled(n, width) else "-" + ZeroFilled(-n, width - 1)
  }

  function DateSuffix(d: Date): string {
    Formatted(d.year, 4) + ("_" + (Formatted(d.month, 2) + ("_" + Formatted(d.day, 2))))
  }

  /** Name of the leaf whose day starts at the given epoch second. */
  function LeafName(dayStart: int): string {
    LEAF_PREFIX + DateSuffix(YmdFromEpoch(dayStart))
  }

  /** Leaf name of an epoch day number. */
  function LeafOfDay(day: int): string {
    LeafName(day * SECS_PER_DAY)
  }

  /** Days of the years 0000 to 9999, whose names have four year digits. */
  predicate InEra(day: int) {
    -719_528 <= day <= 2_932_896
  }

  /** Days up to year 9999 whose year still fits 32 bits. */
  predicate Nameable(day: int) {
    -784_353_015_833 <= day <= 2_932_896
  }

  /** Days whose year fits 32 bits. */
  predicate FitsI32(day: int) {
    -0x8000_0000 <= CivilFromDays(day).year < 0x8000_0000
  }

  lemma EraInYears(day: int)
    ensures InEra(day) <==> 0 <= CivilFromDays(day).year <= 9999
    ensures Nameable(day) <==> -0x8000_0000 <= CivilFromDays(day).year <= 9999
  {
    hide CivilFromDays;
    YearBoundary(0, day);
    YearBoundary(10_000, day);
    YearBoundary(-0x8000_0000, day);
  }

  // ----- strings ------------------------------------------------------------

  lemma {:induction false} StrLessAppend(p: string, a: string, b: string)
    ensures StrLess(p + a, p + b) <==> StrLess(a, b)
  {
    if p == "" {
      assert p + a == a && p + b == b;
    } else {
      StrLessAppend(p[1..], a, b);
      assert (p + a)[1..] == p[1..] + a && (p + b)[1..] == p[1..] + b;
    }
  }

  lemma {:induction false} StrLessAsymmetric(a: string, b: string)
    ensures !(StrLess(a, b) && StrLess(b, a))
  {
    if a != "" && b != "" && a[0] == b[0] {
      StrLessAsymmetric(a[1..], b[1..]);
    }
  }

  function Pow10(w: nat): nat {
    if w == 0 then 1 else 10 * Pow10(w - 1)
  }

  lemma {:induction false} ZeroFilledLength(n: nat, w: nat)
    requires n < Pow10(w)
    ensures |ZeroFilled(n, w)| == w
  {
    if w > 0 {
      ZeroFilledLength(n / 10, w - 1);
    }
  }

  /** Equal-width numerals compare as numbers, whatever follows them. */
  lemma {:induction false} NumeralOrder(m: nat, n: nat, w: nat, x: string, y: string)
    requires m < n < Pow10(w)
    ensures StrLess(ZeroFilled(m, w) + x, ZeroFilled(n, w) + y)
  {
    hide StrLess;
    var x', y' := [DigitChar(m % 10)] + x, [DigitChar(n % 10)] + y;
    assert ZeroFilled(m, w) + x == ZeroFilled(m / 10, w - 1) + x';
    assert ZeroFilled(n, w) + y == ZeroFilled(n / 10, w - 1) + y';
    hide ZeroFilled;
    if m / 10 < n / 10 {
      NumeralOrder(m / 10, n / 10, w - 1, x', y');
    } else {
      StrLessAppend(ZeroFilled(m / 10, w - 1), x', y');
      LowerDigitFirst(m % 10, n % 10, x, y);
    }
  }

  lemma LowerDigitFirst(a: nat, b: nat, x: string, y: string)
    requires a < b < 10
    ensures StrLess([DigitChar(a)] + x, [DigitChar(b)] + y)
  {
  }

  // ----- names order as days ------------------------------------------------

  lemma SuffixOrder(a: Date, b: Date)
    requires ValidDate(a) && ValidDate(b) && DateLess(a, b)
    requires 0 <= a.year && b.year <= 9999
    ensures StrLess(DateSuffix(a), DateSuffix(b))
  {
    var restA := "_" + Formatted(a.day, 2);
    var restB := "_" + Formatted(b.day, 2);
    var monthA := "_" + (Formatted(a.month, 2) + restA);
    var monthB := "_" + (Formatted(b.month, 2) + restB);
    assert Pow10(2) == 100 && Pow10(3) == 1000 && Pow10(4) == 10_000;
    if a.year < b.year {
      NumeralOrder(a.year, b.year, 4, monthA, monthB);
    } else {
      StrLessAppend(Formatted(a.year, 4), monthA, monthB);
      StrLessAppend("_", Formatted(a.month, 2) + restA, Formatted(b.month, 2) + restB);
      if a.month < b.month {
        NumeralOrder(a.month, b.month, 2, restA, restB);
      } else {
        StrLessAppend(Formatted(a.month, 2), restA, restB);
        StrLessAppend("_", Formatted(a.day, 2), Formatted(b.day, 2));
        NumeralOrder(a.day, b.day, 2, "", "");
        assert Formatted(a.day, 2) + "" == Formatted(a.day, 2);
        assert Formatted(b.day, 2) + "" == Formatted(b.day, 2);
      }
    }
  }

  /** Within those days a name spells the true civil date. */
  lemma LeafSpellsDate(day: int)
    requires FitsI32(day)
    ensures LeafOfDay(day) == LEAF_PREFIX + DateSuffix(CivilFromDays(day))
  {
    hide CivilFromDays;
    EraInYears(day);
    YmdExactIffYearFits(day);
  }

  lemma {:induction false} ZeroFilledStartsWithDigit(n: nat, w: nat)
    requires 0 < w
    ensures ZeroFilled(n, w) != "" && '0' <= ZeroFilled(n, w)[0]
  {
    if w == 1 {
      DigitsStartWithDigit(n / 10);
    } else {
      ZeroFilledStartsWithDigit(n / 10, w - 1);
    }
  }

  lemma {:induction false} DigitsStartWithDigit(n: nat)
    ensures Digits(n) != "" ==> '0' <= Digits(n)[0]
  {
    if n > 0 {
      DigitsStartWithDigit(n / 10);
    }
  }

  /**
   For a leaf in years 0000 to 9999 and a cutoff in any representable year up to
   9999 (before year 0 included), names order exactly as days do.
   */
  lemma LeafOrderIsDayOrder(leaf: int, cutoff: int)
    requires InEra(leaf) && Nameable(cutoff)
    ensures StrLess(LeafOfDay(leaf), LeafOfDay(cutoff)) <==> leaf < cutoff
    ensures LeafOfDay(leaf) == LeafOfDay(cutoff) <==> leaf == cutoff
  {
    hide CivilFromDays, LeafOfDay, DateSuffix, ValidDate;
    var a, b := CivilFromDays(leaf), CivilFromDays(cutoff);
    EraInYears(leaf);
    EraInYears(cutoff);
    LeafSpellsDate(leaf);
    LeafSpellsDate(cutoff);
    CivilFromDaysCorrect(leaf);
    CivilFromDaysCorrect(cutoff);
    DateOrderIsDayOrder(leaf, cutoff);
    DateOrderIsDayOrder(cutoff, leaf);
    StrLessAppend(LEAF_PREFIX, DateSuffix(a), DateSuffix(b));
    PrefixCancels(LEAF_PREFIX, DateSuffix(a), DateSuffix(b));
    SuffixOrderExact(a, b);
  }

  lemma PrefixCancels(p: string, x: string, y: string)
    ensures p + x == p + y <==> x == y
  {
    assert x == (p + x)[|p|..] && y == (p + y)[|p|..];
  }

  lemma SuffixOrderExact(a: Date, b: Date)
    requires ValidDate(a) && ValidDate(b)
    requires 0 <= a.year <= 9999 && b.year <= 9999
    ensures StrLess(DateSuffix(a), DateSuffix(b)) <==> DateLess(a, b)
    ensures DateSuffix(a) == DateSuffix(b) <==> a == b
  {
    hide DateSuffix;
    StrLessAsymmetric(DateSuffix(a), DateSuffix(b));
    StrLessAsymmetric(DateSuffix(a), DateSuffix(a));
    if b.year < 0 {
      NegativeYearSortsFirst(a, b);
    } else if DateLess(a, b) {
      SuffixOrder(a, b);
    } else if DateLess(b, a) {
      SuffixOrder(b, a);
    }
  }

  lemma NegativeYearSortsFirst(a: Date, b: Date)
    requires ValidDate(a) && ValidDate(b)
    requires 0 <= a.year && b.year < 0
    ensures StrLess(DateSuffix(b), DateSuffix(a))
  {
    ZeroFilledStartsWithDigit(a.year, 4);
    assert DateSuffix(b)[0] == '-' && DateSuffix(b)[0] < DateSuffix(a)[0];
  }

  // ----- past year 9999 -----------------------------------------------------

  /** At least `w` digits, and more if the number needs more. */
  lemma {:induction false} NumeralIsDigits(n: nat, w: nat)
    ensures |ZeroFilled(n, w)| >= w && (n >= Pow10(w) ==> |ZeroFilled(n, w)| > w)
    ensures forall i :: 0 <= i < |ZeroFilled(n, w)| ==> '0' <= ZeroFilled(n, w)[i] <= '9'
  {
    if w > 0 {
      NumeralIsDigits(n / 10, w - 1);
    } else {
      DigitsAreDigits(n);
    }
  }

  lemma {:induction false} DigitsAreDigits(n: nat)
    ensures n > 0 ==> Digits(n) != ""
    ensures forall i :: 0 <= i < |Digits(n)| ==> '0' <= Digits(n)[i] <= '9'
  {
    if n > 0 {
      DigitsAreDigits(n / 10);
    }
  }

  /** Nothing that starts with more digits than `nines` is long sorts after `nines` and a `_`. */
  lemma {:induction false} DigitsSortBeforeNines(s: string, nines: string, rest: string)
    requires |nines| < |s|
    requires forall i :: 0 <= i <= |nines| ==> '0' <= s[i] <= '9'
    requires forall i :: 0 <= i < |nines| ==> nines[i] == '9'
    ensures StrLess(s, nines + "_" + rest)
  {
    var t := nines + "_" + rest;
    if nines == "" {
      assert t[0] == '_';
    } else {
      DigitsSortBeforeNines(s[1..], nines[1..], rest);
      assert t[0] == '9' && t[1..] == nines[1..] + "_" + rest;
    }
  }

  lemma LastDayOf9999(n: int)
    requires n == 2_932_896
    ensures CivilFromDays(n) == Date(9999, 12, 31)
  {
    hide CivilFromDays;
    YearBoundary(10_000, n);
    YearBoundary(10_000, n + 1);
    CivilFromDaysCorrect(n);
    CivilFollowsCalendar(n);
  }

  lemma OneDigit(d: nat)
    requires d < 10
    ensures ZeroFilled(d, 1) == [DigitChar(d)]
  {
    assert ZeroFilled(0, 0) == "";
  }

  /** One more digit at the end. */
  lemma NextDigit(n: nat, w: nat, d: nat)
    requires d < 10
    ensures ZeroFilled(10 * n + d, w + 1) == ZeroFilled(n, w) + [DigitChar(d)]
  {
  }

  lemma Nines()
    ensures ZeroFilled(9999, 4) == "9999"
  {
    hide ZeroFilled;
    OneDigit(9);
    NextDigit(9, 1, 9);
    NextDigit(99, 2, 9);
    NextDigit(999, 3, 9);
  }

  /** Every cutoff in year 10000 or later sorts before the last day of year 9999. */
  lemma LeafOrderBreaksAtYear10000(cutoff: int)
    requires CivilFromDays(cutoff).year >= 10_000 && FitsI32(cutoff)
    ensures InEra(2_932_896) && 2_932_896 < cutoff
    ensures StrLess(LeafOfDay(cutoff), LeafOfDay(2_932_896))
  {
    hide CivilFromDays, LeafOfDay, DateSuffix, StrLess;
    var last := 2_932_896;
    LastDayOf9999(last);
    YearBoundary(10_000, cutoff);
    LeafSpellsDate(last);
    LeafSpellsDate(cutoff);
    var d := CivilFromDays(cutoff);
    StrLessAppend(LEAF_PREFIX, DateSuffix(d), DateSuffix(Date(9999, 12, 31)));
    LongYearSortsFirst(d, Date(9999, 12, 31));
  }

  /** A year of five digits or more sorts before year 9999. */
  lemma LongYearSortsFirst(d: Date, last: Date)
    requires d.year >= 10_000 && last.year == 9999
    ensures StrLess(DateSuffix(d), DateSuffix(last))
  {
    hide StrLess, ZeroFilled;
    assert Pow10(0) == 1 && Pow10(1) == 10 && Pow10(2) == 100 && Pow10(3) == 1000 && Pow10(4) == 10_000;
    NumeralIsDigits(d.year, 4);
    Nines();
    var rest := Formatted(last.month, 2) + ("_" + Formatted(last.day, 2));
    DigitsSortBeforeNines(DateSuffix(d), "9999", rest);
    assert DateSuffix(last) == "9999" + "_" + rest;
  }

  /**
   Comparing names as strings is comparing days exactly for the cutoffs up to year
   9999; from year 10000 on it is wrong at the last leaf of year 9999.
   */
  lemma LeafOrderIsDayOrderIff(cutoff: int)
    requires FitsI32(cutoff)
    ensures (forall leaf :: InEra(leaf) ==> (StrLess(LeafOfDay(leaf), LeafOfDay(cutoff)) <==> leaf < cutoff))
       <==> CivilFromDays(cutoff).year <= 9999
  {
    hide CivilFromDays, LeafOfDay, StrLess;
    EraInYears(cutoff);
    if CivilFromDays(cutoff).year <= 9999 {
      forall leaf | InEra(leaf)
        ensures StrLess(LeafOfDay(leaf), LeafOfDay(cutoff)) <==> leaf < cutoff
      {
        LeafOrderIsDayOrder(leaf, cutoff);
      }
    } else {
      LeafOrderBreaksAtYear10000(cutoff);
      StrLessAsymmetric(LeafOfDay(cutoff), LeafOfDay(2_932_896));
      assert InEra(2_932_896);
    }
  }
}
