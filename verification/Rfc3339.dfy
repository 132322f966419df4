/** Timestamps: the date arithmetic against an independent day count, the narrowed year, and the printed form. */
module Rfc3339 {
  import opened Wrappers
  import opened CivilTime

  function YearDays(y: int): nat {
    if Leap(y) then 366 else 365
  }

  /** Days from the first of January 1970 to the first of January of year `y`. */
  function DaysBeforeYear(y: int): nat
    requires y >= 1970
    decreases y
  {
    if y == 1970 then 0 else DaysBeforeYear(y - 1) + YearDays(y - 1)
  }

  function DaysBeforeMonth(y: int, m: nat): nat
    requires 1 <= m <= 13
  {
    if m == 1 then 0 else DaysBeforeMonth(y, m - 1) + DaysInMonth(y, m - 1)
  }

  /** The Gregorian count of days from the first of January 1970. */
  function DayNumber(d: Date): nat
    requires ValidDate(d) && d.year >= 1970
  {
    DaysBeforeYear(d.year) + DaysBeforeMonth(d.year, d.month) + d.day - 1
  }

  lemma YearIsItsMonths(y: int)
    ensures DaysBeforeMonth(y, 13) == YearDays(y)
  {
    hide Leap;
    var feb := DaysInMonth(y, 2);
    assert DaysBeforeMonth(y, 2) == 31;
    assert DaysBeforeMonth(y, 3) == 31 + feb;
    assert DaysBeforeMonth(y, 4) == 62 + feb;
    assert DaysBeforeMonth(y, 5) == 92 + feb;
    assert DaysBeforeMonth(y, 6) == 123 + feb;
    assert DaysBeforeMonth(y, 7) == 153 + feb;
    assert DaysBeforeMonth(y, 8) == 184 + feb;
    assert DaysBeforeMonth(y, 9) == 215 + feb;
    assert DaysBeforeMonth(y, 10) == 245 + feb;
    assert DaysBeforeMonth(y, 11) == 276 + feb;
    assert DaysBeforeMonth(y, 12) == 306 + feb;
  }

  /** The calendar's next day is counted one higher. */
  lemma NextDayCounts(d: Date)
    requires ValidDate(d) && d.year >= 1970
    ensures ValidDate(NextDay(d)) && NextDay(d).year >= 1970
    ensures DayNumber(NextDay(d)) == DayNumber(d) + 1
  {
    hide Leap;
    if d.day < DaysInMonth(d.year, d.month) {
    } else if d.month < 12 {
      assert DaysBeforeMonth(d.year, d.month + 1) == DaysBeforeMonth(d.year, d.month) + DaysInMonth(d.year, d.month);
    } else {
      YearIsItsMonths(d.year);
      assert DaysBeforeMonth(d.year, 13) == DaysBeforeMonth(d.year, 12) + DaysInMonth(d.year, 12);
      assert DaysBeforeYear(d.year + 1) == DaysBeforeYear(d.year) + YearDays(d.year);
    }
  }

  /** The conversion gives a real date whose Gregorian day count is the day it was given. */
  lemma {:induction false} CountOfCivil(days: nat)
    ensures ValidDate(CivilFromDays(days)) && CivilFromDays(days).year >= 1970
    ensures DayNumber(CivilFromDays(days)) == days
  {
    hide CivilFromDays, DayNumber, NextDay, ValidDate;
    if days == 0 {
      Epoch();
      EpochCounts();
    } else {
      CountOfCivil(days - 1);
      CivilSteps(days - 1);
      NextDayCounts(CivilFromDays(days - 1));
    }
  }

  lemma EpochCounts()
    ensures ValidDate(Date(1970, 1, 1)) && DayNumber(Date(1970, 1, 1)) == 0
  {
  }

  function PreviousDay(d: Date): Date
    requires ValidDate(d)
  {
    if d.day > 1 then Date(d.year, d.month, d.day - 1)
    else if d.month > 1 then Date(d.year, d.month - 1, DaysInMonth(d.year, d.month - 1))
    else Date(d.year - 1, 12, 31)
  }

  lemma PreviousDayPrecedes(d: Date)
    requires ValidDate(d) && d.year >= 1970 && d != Date(1970, 1, 1)
    ensures ValidDate(PreviousDay(d)) && PreviousDay(d).year >= 1970 && NextDay(PreviousDay(d)) == d
  {
    hide Leap;
  }

  /** Every date from 1970 on is the conversion of its day count: the two are inverse. */
  lemma {:induction false} CivilOfCount(d: Date)
    requires ValidDate(d) && d.year >= 1970
    ensures CivilFromDays(DayNumber(d)) == d
    decreases DayNumber(d)
  {
    hide CivilFromDays, DayNumber, NextDay, ValidDate, PreviousDay;
    if d == Date(1970, 1, 1) {
      Epoch();
      EpochCounts();
    } else {
      var p := PreviousDay(d);
      PreviousDayPrecedes(d);
      NextDayCounts(p);
      CivilOfCount(p);
      CivilSteps(DayNumber(p));
    }
  }

  /** Lexicographic order on dates. */
  predicate DateBefore(a: Date, b: Date) {
    a.year < b.year || (a.year == b.year && (a.month < b.month || (a.month == b.month && a.day < b.day)))
  }

  lemma {:induction false} DatesInOrder(a: nat, b: nat)
    requires a < b
    ensures DateBefore(CivilFromDays(a), CivilFromDays(b))
    decreases b
  {
    hide CivilFromDays, NextDay, ValidDate;
    CivilSteps(b - 1);
    NextDayIsLater(CivilFromDays(b - 1));
    if a < b - 1 {
      DatesInOrder(a, b - 1);
    }
  }

  lemma NextDayIsLater(d: Date)
    requires ValidDate(d)
    ensures DateBefore(d, NextDay(d))
  {
    hide Leap;
  }

  const I32_MAX: int := 0x7FFF_FFFF

  /** Narrowing to a signed 32-bit integer keeps the low 32 bits. */
  function ToI32(n: int): int {
    (n + 0x8000_0000) % 0x1_0000_0000 - 0x8000_0000
  }

  datatype Stamp = Stamp(date: Date, hour: nat, minute: nat, second: nat)

  /** Broken-down UTC time of a Unix time. */
  function UnixToYmdhms(unix: nat): Stamp {
    var days, secsToday := unix / 86_400, unix % 86_400;
    var date := CivilFromDays(days);
    Stamp(Date(ToI32(date.year), date.month, date.day), secsToday / 3600, secsToday % 3600 / 60, secsToday % 60)
  }

  /** Leap years up to year `y`. */
  function LeapsThrough(y: int): int {
    y / 4 - y / 100 + y / 400
  }

  lemma LeapsStep(y: int)
    ensures LeapsThrough(y) == LeapsThrough(y - 1) + if Leap(y) then 1 else 0
  {
    assert y / 4 == (y - 1) / 4 + if y % 4 == 0 then 1 else 0;
    assert y / 100 == (y - 1) / 100 + if y % 100 == 0 then 1 else 0;
    assert y / 400 == (y - 1) / 400 + if y % 400 == 0 then 1 else 0;
    assert y % 400 == 0 ==> y % 100 == 0;
    assert y % 100 == 0 ==> y % 4 == 0;
  }

  lemma {:induction false} DaysBeforeYearClosed(y: int)
    requires y >= 1970
    ensures DaysBeforeYear(y) == 365 * (y - 1970) + LeapsThrough(y - 1) - 477
    decreases y
  {
    if y > 1970 {
      DaysBeforeYearClosed(y - 1);
      LeapsStep(y - 1);
      hide LeapsThrough, Leap;
    }
  }

  /** The first day whose year no longer fits 32 bits. */
  lemma FirstUnfitDay()
    ensures DaysBeforeYear(0x8000_0000) == 784_351_576_777
  {
    DaysBeforeYearClosed(0x8000_0000);
    hide DaysBeforeYear;
    assert LeapsThrough(0x7FFF_FFFF) == 520_764_784;
  }

  /** The narrowed year is the true one exactly for the seconds before the year 2^31. */
  lemma YearFitsIff(unix: nat)
    ensures UnixToYmdhms(unix).date.year == CivilFromDays(unix / 86_400).year
            <==> unix < 67_767_976_233_532_800
  {
    hide CivilFromDays, DaysBeforeYear, DayNumber;
    var days := unix / 86_400;
    var y := CivilFromDays(days).year;
    CountOfCivil(days);
    YearHolds(CivilFromDays(days));
    FirstUnfitDay();
    if y < 0x8000_0000 {
      DaysBeforeYearMonotone(y + 1, 0x8000_0000);
    } else {
      DaysBeforeYearMonotone(0x8000_0000, y);
    }
  }

  lemma {:induction false} DaysBeforeYearMonotone(a: int, b: int)
    requires 1970 <= a <= b
    ensures DaysBeforeYear(a) <= DaysBeforeYear(b)
    decreases b - a
  {
    if a < b {
      DaysBeforeYearMonotone(a, b - 1);
    }
  }

  /** A date's count lies within its year. */
  lemma YearHolds(d: Date)
    requires ValidDate(d) && d.year >= 1970
    ensures DaysBeforeYear(d.year) <= DayNumber(d) < DaysBeforeYear(d.year + 1)
  {
    hide Leap;
    YearIsItsMonths(d.year);
    MonthsMonotone(d.year, d.month + 1);
    assert DaysBeforeMonth(d.year, d.month + 1) == DaysBeforeMonth(d.year, d.month) + DaysInMonth(d.year, d.month);
    assert DaysBeforeYear(d.year + 1) == DaysBeforeYear(d.year) + YearDays(d.year);
  }

  lemma {:induction false} MonthsMonotone(y: int, m: nat)
    requires 1 <= m <= 13
    ensures DaysBeforeMonth(y, m) <= DaysBeforeMonth(y, 13)
    decreases 13 - m
  {
    hide Leap;
    if m < 13 {
      MonthsMonotone(y, m + 1);
    }
  }

  predicate ValidStamp(s: Stamp) {
    ValidDate(s.date) && s.hour < 24 && s.minute < 60 && s.second < 60
  }

  /** The seconds a stamp counts: Gregorian days and the time of day. */
  function UnixOf(s: Stamp): nat
    requires ValidDate(s.date) && s.date.year >= 1970
  {
    DayNumber(s.date) * 86_400 + s.hour * 3600 + s.minute * 60 + s.second
  }

  /** Every second before the year 2^31 has a valid stamp that counts back to it. */
  lemma StampCountsBack(unix: nat)
    requires unix < 67_767_976_233_532_800
    ensures var s := UnixToYmdhms(unix);
            ValidStamp(s) && 1970 <= s.date.year <= I32_MAX && UnixOf(s) == unix
  {
    hide CivilFromDays, DayNumber, ValidDate, ToI32;
    YearFitsIff(unix);
    CountOfCivil(unix / 86_400);
    ToI32Range(CivilFromDays(unix / 86_400).year);
  }

  lemma ToI32Range(y: int)
    ensures -0x8000_0000 <= ToI32(y) <= I32_MAX
    ensures -0x8000_0000 <= y <= I32_MAX ==> ToI32(y) == y
  {
  }

  /** Every valid stamp from 1970 on whose year fits is the conversion of the seconds it counts. */
  lemma CountedStampReturns(s: Stamp)
    requires ValidStamp(s) && 1970 <= s.date.year <= I32_MAX
    ensures UnixToYmdhms(UnixOf(s)) == s
  {
    hide CivilFromDays, DayNumber, ValidDate, ToI32;
    var unix, time := UnixOf(s), s.hour * 3600 + s.minute * 60 + s.second;
    assert unix / 86_400 == DayNumber(s.date) && unix % 86_400 == time;
    CivilOfCount(s.date);
    ToI32Range(s.date.year);
  }

  // The printed form.

  function Digit(d: nat): char
    requires d < 10
  {
    ('0' as int + d) as char
  }

  /** Decimal digits, zero-padded to at least `w`. */
  function Pad(n: nat, w: nat): string
    decreases n + w
  {
    if n == 0 && w == 0 then "" else Pad(n / 10, if w > 0 then w - 1 else 0) + [Digit(n % 10)]
  }

  /** Padding counts the minus sign of a negative number. */
  function PadSigned(n: int, w: nat): string {
    if n >= 0 then Pad(n, w) else "-" + Pad(-n, if w > 0 then w - 1 else 0)
  }

  function Text(s: Stamp): string {
    PadSigned(s.date.year, 4) + ("-" + (Pad(s.date.month, 2) + ("-" + (Pad(s.date.day, 2) + ("T" + Clock(s))))))
  }

  function Clock(s: Stamp): string {
    Pad(s.hour, 2) + (":" + (Pad(s.minute, 2) + (":" + (Pad(s.second, 2) + "Z"))))
  }

  /** A time before the epoch has no text; any other is printed to the second. */
  function SystemTimeToRfc3339(nanos: int): Option<string> {
    if nanos < 0 then None else Some(Text(UnixToYmdhms(nanos / 1_000_000_000)))
  }

  function Pow10(w: nat): nat {
    if w == 0 then 1 else 10 * Pow10(w - 1)
  }

  /** The order in which strings sort. */
  predicate LexLess(s: string, t: string) {
    |t| > 0 && (|s| == 0 || s[0] < t[0] || (s[0] == t[0] && LexLess(s[1..], t[1..])))
  }

  /** Strings that start with equally long parts are ordered by those, and by the rest only when they agree. */
  lemma {:induction false} LexConcat(a: string, s: string, b: string, t: string)
    requires |a| == |b|
    ensures LexLess(a + s, b + t) <==> LexLess(a, b) || (a == b && LexLess(s, t))
  {
    if |a| == 0 {
      assert a + s == s && b + t == t;
    } else {
      LexConcat(a[1..], s, b[1..], t);
      assert (a + s)[1..] == a[1..] + s && (b + t)[1..] == b[1..] + t;
      assert a == [a[0]] + a[1..] && b == [b[0]] + b[1..];
    }
  }

  /** Fixed-width numbers sort as their values. */
  lemma {:induction false} PadOrder(m: nat, n: nat, w: nat)
    requires m < Pow10(w) && n < Pow10(w)
    ensures |Pad(m, w)| == |Pad(n, w)| == w
    ensures LexLess(Pad(m, w), Pad(n, w)) <==> m < n
    ensures Pad(m, w) == Pad(n, w) <==> m == n
  {
    if w > 0 {
      PadOrder(m / 10, n / 10, w - 1);
      var a, b := Pad(m / 10, w - 1), Pad(n / 10, w - 1);
      var s, t := [Digit(m % 10)], [Digit(n % 10)];
      LexConcat(a, s, b, t);
      SnocInjective(a, s[0], b, t[0]);
      assert LexLess(s, t) <==> m % 10 < n % 10;
    }
  }

  lemma SnocInjective(a: string, x: char, b: string, y: char)
    requires |a| == |b|
    ensures a + [x] == b + [y] <==> a == b && x == y
  {
    if a + [x] == b + [y] {
      assert (a + [x])[..|a|] == a && (b + [y])[..|b|] == b;
      assert (a + [x])[|a|] == x && (b + [y])[|b|] == y;
    }
  }

  /** One field and the text after it: the field decides unless it ties. */
  lemma FieldOrder(m: nat, s: string, n: nat, t: string, w: nat)
    requires m < Pow10(w) && n < Pow10(w)
    ensures LexLess(Pad(m, w) + s, Pad(n, w) + t) <==> m < n || (m == n && LexLess(s, t))
  {
    hide Pad, LexLess;
    PadOrder(m, n, w);
    LexConcat(Pad(m, w), s, Pad(n, w), t);
  }

  lemma MarkOrder(mark: string, s: string, t: string)
    requires |mark| == 1
    ensures LexLess(mark + s, mark + t) <==> LexLess(s, t)
  {
    LexConcat(mark, s, mark, t);
    assert !LexLess(mark, mark);
    hide LexLess;
  }

  predicate ClockBefore(a: Stamp, b: Stamp) {
    a.hour < b.hour || (a.hour == b.hour && (a.minute < b.minute || (a.minute == b.minute && a.second < b.second)))
  }

  lemma TwoDigits()
    ensures Pow10(2) == 100 && Pow10(4) == 10_000
  {
    assert Pow10(1) == 10;
    assert Pow10(3) == 1000;
  }

  lemma ClockOrder(a: Stamp, b: Stamp)
    requires ValidStamp(a) && ValidStamp(b)
    ensures LexLess(Clock(a), Clock(b)) <==> ClockBefore(a, b)
  {
    TwoDigits();
    assert !LexLess("Z", "Z");
    hide Pad, LexLess, Pow10;
    FieldOrder(a.second, "Z", b.second, "Z", 2);
    var s, t := Pad(a.second, 2) + "Z", Pad(b.second, 2) + "Z";
    MarkOrder(":", s, t);
    FieldOrder(a.minute, ":" + s, b.minute, ":" + t, 2);
    MarkOrder(":", Pad(a.minute, 2) + (":" + s), Pad(b.minute, 2) + (":" + t));
    FieldOrder(a.hour, ":" + (Pad(a.minute, 2) + (":" + s)), b.hour, ":" + (Pad(b.minute, 2) + (":" + t)), 2);
  }

  /** Up to year 9999 texts sort as their dates and times of day do. */
  lemma TextOrder(a: Stamp, b: Stamp)
    requires ValidStamp(a) && ValidStamp(b) && 0 <= a.date.year <= 9999 && 0 <= b.date.year <= 9999
    ensures LexLess(Text(a), Text(b)) <==>
              DateBefore(a.date, b.date) || (a.date == b.date && ClockBefore(a, b))
  {
    TwoDigits();
    ClockOrder(a, b);
    hide Pad, LexLess, Pow10, Clock, ClockBefore, Leap;
    var x, y := a.date, b.date;
    MarkOrder("T", Clock(a), Clock(b));
    FieldOrder(x.day, "T" + Clock(a), y.day, "T" + Clock(b), 2);
    var s, t := Pad(x.day, 2) + ("T" + Clock(a)), Pad(y.day, 2) + ("T" + Clock(b));
    MarkOrder("-", s, t);
    FieldOrder(x.month, "-" + s, y.month, "-" + t, 2);
    MarkOrder("-", Pad(x.month, 2) + ("-" + s), Pad(y.month, 2) + ("-" + t));
    FieldOrder(x.year, "-" + (Pad(x.month, 2) + ("-" + s)), y.year, "-" + (Pad(y.month, 2) + ("-" + t)), 4);
  }

  /** Later in the day is later on the clock. */
  lemma ClockSteps(d: Date, m: nat, n: nat)
    requires m < n < 86_400
    ensures ClockBefore(Stamp(d, m / 3600, m % 3600 / 60, m % 60), Stamp(d, n / 3600, n % 3600 / 60, n % 60))
  {
    assert m % 60 == m % 3600 % 60 && n % 60 == n % 3600 % 60;
  }

  /** A later second has a later stamp. */
  lemma StampsInOrder(a: nat, b: nat)
    requires a < b < 67_767_976_233_532_800
    ensures var s, t := UnixToYmdhms(a), UnixToYmdhms(b);
            DateBefore(s.date, t.date) || (s.date == t.date && ClockBefore(s, t))
  {
    hide CivilFromDays, DateBefore, ToI32, ClockBefore;
    YearFitsIff(a);
    YearFitsIff(b);
    if a / 86_400 < b / 86_400 {
      DatesInOrder(a / 86_400, b / 86_400);
    } else {
      ClockSteps(UnixToYmdhms(a).date, a % 86_400, b % 86_400);
    }
  }

  lemma StampOrderIsStrict(s: Stamp, t: Stamp)
    ensures !((DateBefore(s.date, t.date) || (s.date == t.date && ClockBefore(s, t)))
              && (DateBefore(t.date, s.date) || (t.date == s.date && ClockBefore(t, s))))
  {
  }

  lemma FirstFiveDigitYear(unix: nat)
    requires unix < 253_402_300_800
    ensures CivilFromDays(unix / 86_400).year <= 9999
  {
    hide CivilFromDays, DaysBeforeYear, DayNumber;
    DaysBeforeYearClosed(10_000);
    assert LeapsThrough(9999) == 2424;
    CountOfCivil(unix / 86_400);
    var y := CivilFromDays(unix / 86_400).year;
    YearHolds(CivilFromDays(unix / 86_400));
    if y >= 10_000 {
      DaysBeforeYearMonotone(10_000, y);
    }
  }

  /** Timestamps of the years up to 9999 sort as the seconds they print. */
  lemma TimestampsSortAsTimes(a: int, b: int)
    requires 0 <= a < 253_402_300_800_000_000_000 && 0 <= b < 253_402_300_800_000_000_000
    ensures SystemTimeToRfc3339(a).Some? && SystemTimeToRfc3339(b).Some?
    ensures LexLess(SystemTimeToRfc3339(a).value, SystemTimeToRfc3339(b).value)
            <==> a / 1_000_000_000 < b / 1_000_000_000
  {
    hide UnixToYmdhms, Text, LexLess, DateBefore, ClockBefore, ValidStamp;
    var m, n := a / 1_000_000_000, b / 1_000_000_000;
    FourDigitStamp(m);
    FourDigitStamp(n);
    var s, t := UnixToYmdhms(m), UnixToYmdhms(n);
    TextOrder(s, t);
    StampOrderIsStrict(s, t);
    if m < n {
      StampsInOrder(m, n);
    } else if n < m {
      StampsInOrder(n, m);
    }
  }

  lemma FourDigitStamp(unix: nat)
    requires unix < 253_402_300_800
    ensures ValidStamp(UnixToYmdhms(unix)) && 1970 <= UnixToYmdhms(unix).date.year <= 9999
  {
    StampCountsBack(unix);
    YearFitsIff(unix);
    FirstFiveDigitYear(unix);
    hide ValidStamp, CivilFromDays;
  }

  lemma FiveDigits()
    ensures |Pad(10_000, 4)| == 5 && Pad(10_000, 4)[0] == '1'
    ensures |Pad(9999, 4)| == 4 && Pad(9999, 4)[0] == '9'
  {
    assert Pad(1, 0) == ['1'];
    assert Pad(10, 1) == ['1'] + ['0'];
    assert Pad(100, 2) == Pad(10, 1) + ['0'];
    assert Pad(1000, 3) == Pad(100, 2) + ['0'];
    assert Pad(9, 1) == ['9'];
    assert Pad(99, 2) == Pad(9, 1) + ['9'];
    assert Pad(999, 3) == Pad(99, 2) + ['9'];
  }

  lemma CountOfYear10000()
    ensures UnixOf(Stamp(Date(10_000, 1, 1), 0, 0, 0)) == 253_402_300_800
    ensures UnixOf(Stamp(Date(9999, 12, 31), 23, 59, 59)) == 253_402_300_799
  {
    NextDayCounts(Date(9999, 12, 31));
    DaysBeforeYearClosed(10_000);
    assert LeapsThrough(9999) == 2424;
    hide DaysBeforeYear;
  }

  /** The order is lost at year 10000: its first second sorts before the last of year 9999. */
  lemma YearTenThousandSortsFirst()
    ensures LexLess(Text(UnixToYmdhms(253_402_300_800)), Text(UnixToYmdhms(253_402_300_799)))
  {
    hide UnixToYmdhms, Pad, Clock, DayNumber, UnixOf;
    FiveDigits();
    CountOfYear10000();
    CountedStampReturns(Stamp(Date(10_000, 1, 1), 0, 0, 0));
    CountedStampReturns(Stamp(Date(9999, 12, 31), 23, 59, 59));
  }

  /** All the timestamps before second `n` sort as times. */
  ghost predicate SortsBelow(n: nat) {
    forall a: nat, b: nat :: a < n && b < n ==> (LexLess(Text(UnixToYmdhms(a)), Text(UnixToYmdhms(b))) <==> a < b)
  }

  /** The year 10000 is exactly where the order ends. */
  lemma SortsExactlyBeforeYear10000(n: nat)
    ensures SortsBelow(n) <==> n <= 253_402_300_800
  {
    hide UnixToYmdhms, Text, LexLess;
    if n <= 253_402_300_800 {
      forall a: nat, b: nat | a < n && b < n
        ensures LexLess(Text(UnixToYmdhms(a)), Text(UnixToYmdhms(b))) <==> a < b
      {
        TimestampsSortAsTimes(a * 1_000_000_000, b * 1_000_000_000);
      }
    } else {
      YearTenThousandSortsFirst();
    }
  }

  // Reading the text back.

  function Value(s: string): int {
    if s == "" then 0 else 10 * Value(s[..|s| - 1]) + (s[|s| - 1] as int - '0' as int)
  }

  lemma {:induction false} ValueOfPad(n: nat, w: nat)
    requires n < Pow10(w)
    ensures |Pad(n, w)| == w && Value(Pad(n, w)) == n
  {
    if w > 0 {
      ValueOfPad(n / 10, w - 1);
      var front := Pad(n / 10, w - 1);
      assert Pad(n, w) == front + [Digit(n % 10)];
      assert (front + [Digit(n % 10)])[..w - 1] == front;
      DigitValue(n % 10);
      hide Pad, Digit;
    }
  }

  lemma DigitValue(d: nat)
    requires d < 10
    ensures Digit(d) as int - '0' as int == d
  {
  }

  /** Six numbers at the places a date-time has them. */
  function ReadStamp(t: string): (int, int, int, int, int, int)
    requires |t| == 20
  {
    (Value(t[..4]), Value(t[5..7]), Value(t[8..10]), Value(t[11..13]), Value(t[14..16]), Value(t[17..19]))
  }

  /** The separators of a UTC date-time. */
  predicate DateTimeShape(t: string) {
    |t| == 20 && t[4] == '-' && t[7] == '-' && t[10] == 'T' && t[13] == ':' && t[16] == ':' && t[19] == 'Z'
  }

  /** Two digits, a mark, and the rest. */
  lemma FieldReadsBack(n: nat, w: nat, mark: char, rest: string)
    requires n < Pow10(w)
    ensures var t := Pad(n, w) + ([mark] + rest);
            |t| == w + 1 + |rest| && Value(t[..w]) == n && t[w] == mark && t[w + 1..] == rest
  {
    ValueOfPad(n, w);
    hide Pad, Value;
    var t := Pad(n, w) + ([mark] + rest);
    assert t[..w] == Pad(n, w);
  }

  lemma DropDrop(t: string, i: nat, j: nat, k: nat)
    requires i + j <= i + k <= |t|
    ensures t[i..][j..k] == t[i + j..i + k] && t[i..][..k] == t[i..i + k]
  {
  }

  lemma ClockReadsBack(s: Stamp)
    requires ValidStamp(s)
    ensures var t := Clock(s);
            |t| == 9 && t[2] == ':' && t[5] == ':' && t[8] == 'Z'
            && Value(t[..2]) == s.hour && Value(t[3..5]) == s.minute && Value(t[6..8]) == s.second
  {
    TwoDigits();
    hide Pad, Value, Pow10, ValidDate;
    var t3 := Pad(s.second, 2) + (['Z'] + "");
    var t2 := Pad(s.minute, 2) + ([':'] + t3);
    var t1 := Pad(s.hour, 2) + ([':'] + t2);
    assert ['Z'] + "" == "Z";
    assert t1 == Clock(s);
    FieldReadsBack(s.second, 2, 'Z', "");
    FieldReadsBack(s.minute, 2, ':', t3);
    FieldReadsBack(s.hour, 2, ':', t2);
    DropDrop(t1, 3, 0, 2);
    DropDrop(t2, 3, 0, 2);
    DropDrop(t1, 3, 3, 5);
  }

  /** Up to year 9999 the text has the shape of section 5.6 of RFC 3339 and reads back as the stamp it prints. */
  lemma TextReadsBack(s: Stamp)
    requires ValidStamp(s) && 0 <= s.date.year <= 9999
    ensures DateTimeShape(Text(s))
    ensures ReadStamp(Text(s)) == (s.date.year, s.date.month, s.date.day, s.hour, s.minute, s.second)
  {
    TwoDigits();
    ClockReadsBack(s);
    hide Pad, Value, Pow10, Leap, Clock;
    var c := Clock(s);
    var t3 := Pad(s.date.day, 2) + (['T'] + c);
    var t2 := Pad(s.date.month, 2) + (['-'] + t3);
    var t1 := Pad(s.date.year, 4) + (['-'] + t2);
    assert t1 == Text(s);
    FieldReadsBack(s.date.day, 2, 'T', c);
    FieldReadsBack(s.date.month, 2, '-', t3);
    FieldReadsBack(s.date.year, 4, '-', t2);
    hide Text;
    DropDrop(t1, 5, 0, 2);
    DropDrop(t2, 3, 0, 2);
    DropDrop(t1, 5, 3, 5);
    ClockPlaces(t1, t2, t3, c);
  }

  /** Where the clock stands in the whole text. */
  lemma ClockPlaces(t1: string, t2: string, t3: string, c: string)
    requires |t1| == 20 && |c| == 9 && t1[5..] == t2 && |t2| == 15 && t2[3..] == t3 && |t3| == 12 && t3[3..] == c
    ensures t1[11..13] == c[..2] && t1[14..16] == c[3..5] && t1[17..19] == c[6..8]
    ensures t1[7] == t2[2] && t1[10] == t3[2] && t1[13] == c[2] && t1[16] == c[5] && t1[19] == c[8]
  {
  }
}
