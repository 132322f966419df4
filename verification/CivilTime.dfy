/** Seconds since the Unix epoch to calendar date and time, checked against the Gregorian calendar itself. */
module CivilTime {

  datatype Date = Date(year: int, month: nat, day: nat)

  predicate Leap(y: int) {
    y % 4 == 0 && (y % 100 != 0 || y % 400 == 0)
  }

  function DaysInMonth(y: int, m: nat): nat {
    if m == 2 then if Leap(y) then 29 else 28
    else if m == 4 || m == 6 || m == 9 || m == 11 then 30
    else 31
  }

  predicate ValidDate(d: Date) {
    1 <= d.month <= 12 && 1 <= d.day <= DaysInMonth(d.year, d.month)
  }

  /** The day after, by the calendar. */
  function NextDay(d: Date): Date {
    if d.day < DaysInMonth(d.year, d.month) then Date(d.year, d.month, d.day + 1)
    else if d.month < 12 then Date(d.year, d.month + 1, 1)
    else Date(d.year + 1, 1, 1)
  }

  /** Days of a 400-year era before its `yoe`-th year, counting years from March. */
  function YearStart(yoe: nat): (n: nat) {
    365 * yoe + yoe / 4 - yoe / 100
  }

  function YearOfEra(doe: nat): (yoe: nat)
    requires doe < 146_097
  {
    (doe - doe / 1460 + doe / 36_524 - doe / 146_096) / 365
  }

  /** Within the c-th century of an era, on its r-th day: the leap-day correction lands in the right year. */
  lemma YearOfCentury(c: nat, r: nat)
    requires c <= 3 && r < 36_524
    ensures var w := (r - (24 * c + r) / 1460) / 365;
            w <= 99 && 365 * w + w / 4 <= r && (w < 99 ==> r < 365 * (w + 1) + (w + 1) / 4)
  {
    var p := (24 * c + r) / 1460;
    var w := (r - p) / 365;
    var k, j := w / 4, w % 4;
    assert r - p < 365 * 100;
    assert p >= k;
    assert p <= k + 1;
  }

  /** Days and years of an era, counted within the century. */
  lemma SplitEra(c: nat, r: nat)
    requires c <= 3 && r < 36_524
    ensures YearOfEra(36_524 * c + r) == 100 * c + (r - (24 * c + r) / 1460) / 365
  {
    var doe := 36_524 * c + r;
    assert doe / 36_524 == c && doe / 146_096 == 0;
    assert doe / 1460 == 25 * c + (24 * c + r) / 1460;
  }

  /** The year found is the one whose days contain the day sought; the era's last day is the 366th of its last year. */
  lemma YearOfEraBounds(doe: nat)
    requires doe < 146_097
    ensures YearOfEra(doe) <= 399
    ensures YearStart(YearOfEra(doe)) <= doe
    ensures doe < YearStart(YearOfEra(doe) + 1) || (YearOfEra(doe) == 399 && doe == 146_096)
  {
    hide YearOfEra, YearStart;
    if doe == 146_096 {
      LastDayOfEra();
    } else {
      var c, r := doe / 36_524, doe % 36_524;
      YearOfCentury(c, r);
      SplitEra(c, r);
      var w := (r - (24 * c + r) / 1460) / 365;
      YearStartSplit(c, w);
      if w < 99 {
        YearStartSplit(c, w + 1);
      }
    }
  }

  lemma LastDayOfEra()
    ensures YearOfEra(146_096) == 399 && YearStart(399) == 146_096 - 365
  {
  }

  lemma YearStartSplit(c: nat, w: nat)
    requires w <= 99
    ensures YearStart(100 * c + w) == 36_524 * c + 365 * w + w / 4
    ensures YearStart(100 * c + 100) == 36_524 * (c + 1)
  {
    assert (100 * c + w) / 4 == 25 * c + w / 4;
    assert (100 * c + w) / 100 == c;
  }

  /** The March-based month holding a day of a March-based year. */
  function MonthIndex(doy: nat): nat {
    (5 * doy + 2) / 153
  }

  function MonthOffset(mp: nat): nat {
    (153 * mp + 2) / 5
  }

  /** The month arithmetic is the calendar's own table of March-based months. */
  lemma MonthTable(doy: nat)
    requires doy <= 365
    ensures MonthIndex(doy) <= 11
    ensures MonthOffset(MonthIndex(doy)) <= doy
    ensures doy < MonthOffset(MonthIndex(doy) + 1)
    ensures MonthOffset(0) == 0 && MonthOffset(1) == 31 && MonthOffset(2) == 61 && MonthOffset(3) == 92
    ensures MonthOffset(4) == 122 && MonthOffset(5) == 153 && MonthOffset(6) == 184 && MonthOffset(7) == 214
    ensures MonthOffset(8) == 245 && MonthOffset(9) == 275 && MonthOffset(10) == 306 && MonthOffset(11) == 337
    ensures MonthOffset(12) == 367
  {
  }

  /**
   Howard Hinnant's civil-from-days as the source writes it, before the year is narrowed.
   That every intermediate is a natural number is part of the types: nothing underflows.
   */
  function CivilFromDays(days: nat): (date: Date)
  {
    var z: nat := days + 719_468;
    var era: nat := z / 146_097;
    var doe: nat := z - era * 146_097;
    CivilInEra(era, doe)
  }

  /** The date of day `doe` of era `era`. */
  function CivilInEra(era: nat, doe: nat): (date: Date)
    requires doe < 146_097
  {
    YearOfEraBounds(doe);
    var yoe: nat := YearOfEra(doe);
    MarchDate(yoe + era * 400, doe - YearStart(yoe))
  }

  /** The date of day `doy` of the year that starts in March of year `y`. */
  function MarchDate(y: nat, doy: nat): (date: Date)
    requires doy <= 365
  {
    MonthTable(doy);
    var mp: nat := MonthIndex(doy);
    var d: nat := doy - MonthOffset(mp) + 1;
    var m: nat := if mp < 10 then mp + 3 else mp - 9;
    Date(y + if m <= 2 then 1 else 0, m, d)
  }

  /** The last day of a March-based year ends February, on the 29th in leap years. */
  function LastDoy(y: nat): nat {
    if Leap(y + 1) then 365 else 364
  }

  lemma MarchDateValid(y: nat, doy: nat)
    requires doy <= LastDoy(y)
    ensures ValidDate(MarchDate(y, doy))
  {
    MonthTable(doy);
    hide MonthIndex, MonthOffset, Leap;
    var mp := MonthIndex(doy);
    if mp == 0 {} else if mp == 1 {} else if mp == 2 {} else if mp == 3 {} else if mp == 4 {} else if mp == 5 {}
    else if mp == 6 {} else if mp == 7 {} else if mp == 8 {} else if mp == 9 {} else if mp == 10 {} else {}
  }

  /** Within a March-based year the next day is the calendar's next day. */
  lemma MarchStep(y: nat, doy: nat)
    requires doy < LastDoy(y)
    ensures MarchDate(y, doy + 1) == NextDay(MarchDate(y, doy))
  {
    MonthTable(doy);
    MonthTable(doy + 1);
    hide MonthIndex, MonthOffset, Leap;
    var mp := MonthIndex(doy);
    if mp == 0 {} else if mp == 1 {} else if mp == 2 {} else if mp == 3 {} else if mp == 4 {} else if mp == 5 {}
    else if mp == 6 {} else if mp == 7 {} else if mp == 8 {} else if mp == 9 {} else if mp == 10 {} else {}
  }

  /** After the last day of February comes the first of March. */
  lemma MarchWrap(y: nat)
    ensures MarchDate(y + 1, 0) == NextDay(MarchDate(y, LastDoy(y)))
  {
    MonthTable(0);
    MonthTable(LastDoy(y));
    hide MonthIndex, MonthOffset, Leap;
  }

  lemma LeapRepeats(era: nat, y: nat)
    ensures Leap(y + era * 400) == Leap(y)
  {
    assert (y + era * 400) / 4 == y / 4 + era * 100;
    assert (y + era * 400) / 100 == y / 100 + era * 4;
    assert (y + era * 400) / 400 == y / 400 + era;
    assert (y + era * 400) % 4 == y % 4;
    assert (y + era * 400) % 100 == y % 100;
    assert (y + era * 400) % 400 == y % 400;
  }

  /** A March-based year of an era is as long as the February it ends with makes it. */
  lemma YearLength(era: nat, yoe: nat)
    requires yoe < 399
    ensures YearStart(yoe + 1) - YearStart(yoe) == LastDoy(yoe + era * 400) + 1
  {
    LeapRepeats(era, yoe + 1);
    LeapLength(yoe + 1);
    hide Leap;
  }

  lemma LeapLength(y: nat)
    requires 0 < y < 400
    ensures YearStart(y) - YearStart(y - 1) == if Leap(y) then 366 else 365
  {
  }

  /** Year `yoe` of an era contains the era's day `doe`. */
  predicate InYear(yoe: nat, doe: nat) {
    yoe <= 399 && 0 <= doe - YearStart(yoe) <= 365 && doe < 146_097 && (doe < YearStart(yoe + 1) || yoe == 399)
  }

  /** The year found is the only one whose days contain the day sought. */
  lemma YearOfEraUnique(yoe: nat, doe: nat)
    requires InYear(yoe, doe)
    ensures YearOfEra(doe) == yoe
  {
    YearOfEraBounds(doe);
    hide YearOfEra;
  }

  lemma YearOfEraIsIn(doe: nat)
    requires doe < 146_097
    ensures InYear(YearOfEra(doe), doe)
  {
    YearOfEraBounds(doe);
    hide YearOfEra;
  }

  /** The date of a day, whichever containing year is named. */
  function DateInYear(era: nat, yoe: nat, doe: nat): Date
    requires InYear(yoe, doe)
  {
    MarchDate(yoe + era * 400, doe - YearStart(yoe))
  }

  lemma CivilInEraIs(era: nat, yoe: nat, doe: nat)
    requires InYear(yoe, doe)
    ensures doe < 146_097
    ensures CivilInEra(era, doe) == DateInYear(era, yoe, doe)
  {
    YearOfEraUnique(yoe, doe);
    hide YearOfEra, YearStart, MarchDate;
  }

  /** A day of a March-based year: before the last, the next day is in the year too; the last is followed by the next year's first. */
  lemma DayAfter(era: nat, yoe: nat, doe: nat)
    requires InYear(yoe, doe)
    ensures doe - YearStart(yoe) <= LastDoy(yoe + era * 400)
    ensures doe - YearStart(yoe) < LastDoy(yoe + era * 400) ==> InYear(yoe, doe + 1)
    ensures doe - YearStart(yoe) == LastDoy(yoe + era * 400) && yoe < 399 ==>
              doe + 1 == YearStart(yoe + 1) && InYear(yoe + 1, doe + 1)
    ensures doe - YearStart(yoe) == LastDoy(yoe + era * 400) && yoe == 399 ==> doe == 146_096
  {
    if yoe < 399 {
      YearLength(era, yoe);
      LastDayOf(yoe);
    } else {
      LastYearOfEra(era);
    }
    hide LastDoy;
  }

  /** The next day of the same March-based year. */
  lemma StepInYear(era: nat, yoe: nat, doe: nat)
    requires InYear(yoe, doe) && InYear(yoe, doe + 1) && doe - YearStart(yoe) < LastDoy(yoe + era * 400)
    ensures ValidDate(DateInYear(era, yoe, doe))
    ensures DateInYear(era, yoe, doe + 1) == NextDay(DateInYear(era, yoe, doe))
  {
    hide MarchDate, LastDoy, NextDay, ValidDate, YearStart;
    var y, doy := yoe + era * 400, doe - YearStart(yoe);
    MarchDateValid(y, doy);
    MarchStep(y, doy);
    assert doe + 1 - YearStart(yoe) == doy + 1;
  }

  /** From the last day of a March-based year to the first of the next, in this era or the next one. */
  lemma StepAcrossYears(era: nat, yoe: nat, doe: nat)
    requires InYear(yoe, doe) && doe - YearStart(yoe) == LastDoy(yoe + era * 400)
    ensures ValidDate(DateInYear(era, yoe, doe))
    ensures InYear(yoe + 1, doe + 1) && doe + 1 == YearStart(yoe + 1) ==>
              DateInYear(era, yoe + 1, doe + 1) == NextDay(DateInYear(era, yoe, doe))
    ensures yoe == 399 ==> InYear(0, 0) && DateInYear(era + 1, 0, 0) == NextDay(DateInYear(era, yoe, doe))
  {
    FirstDayOfEra();
    hide MarchDate, LastDoy, NextDay, ValidDate, YearStart, InYear;
    var y := yoe + era * 400;
    MarchDateValid(y, LastDoy(y));
    MarchWrap(y);
    assert yoe == 399 ==> y + 1 == 0 + (era + 1) * 400;
    assert y + 1 == yoe + 1 + era * 400;
  }

  lemma FirstDayOfEra()
    ensures YearStart(0) == 0 && InYear(0, 0)
  {
  }

  lemma LastDayOf(yoe: nat)
    requires yoe < 399
    ensures InYear(yoe + 1, YearStart(yoe + 1))
  {
  }

  lemma LastYearOfEra(era: nat)
    ensures LastDoy(399 + era * 400) == 365 && YearStart(399) == 146_096 - 365 && YearStart(400) == 146_096
  {
    LeapRepeats(era, 400);
  }

  /** Day zero is the first of January 1970. */
  lemma Epoch()
    ensures CivilFromDays(0) == Date(1970, 1, 1)
  {
    assert InYear(369, 135_080);
    CivilInEraIs(4, 369, 135_080);
    MonthTable(306);
    hide YearOfEra, MonthIndex, MonthOffset;
    assert 135_080 - YearStart(369) == 306;
  }

  lemma CivilFromDaysIs(days: nat, era: nat, doe: nat, yoe: nat)
    requires days + 719_468 == era * 146_097 + doe && doe < 146_097 && InYear(yoe, doe)
    ensures CivilFromDays(days) == DateInYear(era, yoe, doe)
  {
    assert (days + 719_468) / 146_097 == era;
    CivilInEraIs(era, yoe, doe);
    hide CivilInEra, DateInYear, InYear;
  }

  /** Adding a day gives the calendar's next day, and every date produced exists. */
  lemma CivilSteps(days: nat)
    ensures ValidDate(CivilFromDays(days))
    ensures CivilFromDays(days + 1) == NextDay(CivilFromDays(days))
  {
    hide *;
    var z := days + 719_468;
    var era := z / 146_097;
    var doe := z % 146_097;
    var yoe := YearOfEra(doe);
    YearOfEraIsIn(doe);
    CivilFromDaysIs(days, era, doe, yoe);
    DayAfter(era, yoe, doe);
    if doe - YearStart(yoe) < LastDoy(yoe + era * 400) {
      StepInYear(era, yoe, doe);
      InYearEra(yoe, doe + 1);
      CivilFromDaysIs(days + 1, era, doe + 1, yoe);
    } else {
      StepAcrossYears(era, yoe, doe);
      InYearEra(yoe, doe);
      if yoe < 399 {
        InYearEra(yoe + 1, doe + 1);
        CivilFromDaysIs(days + 1, era, doe + 1, yoe + 1);
      } else {
        CivilFromDaysIs(days + 1, era + 1, 0, 0);
      }
    }
  }

  lemma InYearEra(yoe: nat, doe: nat)
    requires InYear(yoe, doe)
    ensures doe < 146_097 && yoe <= 399
  {
  }
}
