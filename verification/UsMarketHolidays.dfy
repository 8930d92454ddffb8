/** The closing days of the New York Stock Exchange that follow fixed rules, the Easter date they
    rest on included. Days are ordinals of the calendar. */
module UsMarketHolidays {
  import opened Arithmetic
  import opened Calendar
  import opened Collections

  const SPECIAL_CLOSURES: set<int> := { Ordinal(2025, 1, 9) }

  function NthWeekday(year: int, month: int, weekday: int, nth: int): int
    requires 1 <= month <= 12
  {
    var first := Ordinal(year, month, 1);
    first + (weekday - Weekday(first)) % 7 + 7 * (nth - 1)
  }

  function LastMondayOfMay(year: int): int {
    var may31 := Ordinal(year, 5, 31);
    may31 - Weekday(may31)
  }

  /** A Saturday holiday is observed on the Friday before, a Sunday one on the Monday after. */
  function Observed(day: int): int {
    if Weekday(day) == SATURDAY then day - 1
    else if Weekday(day) == SUNDAY then day + 1
    else day
  }

  /** The anonymous Gregorian computation: month and day of Easter. */
  function EasterDate(year: int): (int, int) {
    var a := year % 19;
    var (b, c) := (year / 100, year % 100);
    var (d, e) := (b / 4, b % 4);
    var f := (b + 8) / 25;
    var g := (b - f + 1) / 3;
    var h := (19 * a + b - d - g + 15) % 30;
    var (i, k) := (c / 4, c % 4);
    var m := (32 + 2 * e + 2 * i - h - k) % 7;
    var n := (a + 11 * h + 22 * m) / 451;
    var x := h + m - 7 * n + 114;
    (x / 31, x % 31 + 1)
  }

  /** Days from March 21 to the uncorrected paschal full moon, as the computation has it. */
  function MoonOffset(year: int): (h: int)
    ensures 0 <= h < 30
  {
    var b := year / 100;
    (19 * (year % 19) + b - b / 4 - (b - (b + 8) / 25 + 1) / 3 + 15) % 30
  }

  /** The day of March on which the paschal full moon falls: a day earlier for the two latest offsets. */
  function PaschalFullMoon(year: int): (n: int)
    ensures 21 <= n <= 49
  {
    MoonOfOffset(MoonOffset(year), year % 19)
  }

  function MoonOfOffset(h: int, a: int): (n: int)
    requires 0 <= h < 30
    ensures 21 <= n <= 49
  {
    if h == 29 || (h == 28 && a >= 11) then 21 + h - 1 else 21 + h
  }

  /** The epact of Clavius' tables, from golden number, century and the two century corrections, as
      Knuth gives it in The Art of Computer Programming, volume 1, section 1.3.2, exercise 14. */
  function Epact(year: int): (e: int)
    ensures 0 <= e < 30
  {
    var golden := year % 19 + 1;
    var century := year / 100 + 1;
    var skippedLeapYears := 3 * century / 4 - 12;
    var moonCorrection := (8 * century + 5) / 25 - 5;
    (11 * golden + 20 + moonCorrection - skippedLeapYears) % 30
  }

  function MoonOfEpact(epact: int, golden: int): int {
    var corrected := if (epact == 25 && golden > 11) || epact == 24 then epact + 1 else epact;
    if 44 - corrected < 21 then 44 - corrected + 30 else 44 - corrected
  }

  /** The same full moon from those tables. */
  function ClaviusFullMoon(year: int): int {
    MoonOfEpact(Epact(year), year % 19 + 1)
  }

  lemma MoonTablesAgree(year: int)
    requires year >= 1
    ensures PaschalFullMoon(year) == ClaviusFullMoon(year)
  {
    OffsetOfEpact(year);
    SameMoon(MoonOffset(year), Epact(year), year % 19);
  }

  lemma SameMoon(h: int, epact: int, a: int)
    requires 0 <= h < 30 && 0 <= epact < 30 && h == (23 - epact) % 30
    ensures MoonOfOffset(h, a) == MoonOfEpact(epact, a + 1)
  {
  }

  lemma OffsetOfEpact(year: int)
    requires year >= 1
    ensures MoonOffset(year) == (23 - Epact(year)) % 30
  {
    var a, b := year % 19, year / 100;
    CenturyCorrections(b);
    var solar, lunar := b - b / 4, (b - (b + 8) / 25 + 1) / 3;
    Complementary(19 * a + solar - lunar + 15, 11 * (a + 1) + 20 + (lunar - 5) - (solar - 12), a);
  }

  /** The century corrections of the two forms are the same numbers. */
  lemma CenturyCorrections(b: int)
    requires b >= 0
    ensures 3 * (b + 1) / 4 == b - b / 4
    ensures (8 * (b + 1) + 5) / 25 == (b - (b + 8) / 25 + 1) / 3
  {
    var q, r := b / 25, b % 25;
    assert b == 25 * q + r;
    assert (b + 8) / 25 == q + (r + 8) / 25;
    assert (8 * b + 13) / 25 == 8 * q + (8 * r + 13) / 25;
    assert b - (b + 8) / 25 + 1 == 3 * (8 * q) + (r + 1 - (r + 8) / 25);
    assert (8 * r + 13) / 25 == (r + 1 - (r + 8) / 25) / 3;
  }

  /** Offset and epact add up to 23 modulo 30. */
  lemma Complementary(x: int, y: int, a: int)
    requires x + y == 30 * a + 53
    ensures x % 30 == (23 - y % 30) % 30
  {
    assert x == 30 * a + 53 - y;
    assert y == 30 * (y / 30) + y % 30;
    assert x == 30 * (a + 1 - y / 30) + (23 - y % 30);
  }

  /** March 22 plus the offset and the weekday term is a Sunday. */
  lemma OffsetReachesSunday(year: int, h: int, m: int)
    requires year >= 1
    requires m == (32 + 2 * (year / 100 % 4) + 2 * (year % 100 / 4) - h - year % 100 % 4) % 7
    ensures Weekday(Ordinal(year, 3, 22) + h + m) == SUNDAY
  {
    hide Ordinal, Weekday;
    var b, c := year / 100, year % 100;
    var d, e, i, k := b / 4, b % 4, c / 4, c % 4;
    var w := (32 + 2 * e + 2 * i - h - k) / 7;
    assert year == 400 * d + 100 * e + 4 * i + k;
    MarchOrdinal(year, d, e, i, k);
    assert 32 + 2 * e + 2 * i - h - k == 7 * w + m;
    WholeWeeks(20871 * d + 5218 * e + 209 * i + 52 * k - 36 - w);
  }

  /** Every seventh day is a Sunday. */
  lemma WholeWeeks(weeks: int)
    ensures Weekday(7 * weeks) == SUNDAY
  {
    QuotientUnique(7 * weeks + 6, 7, weeks, 6);
  }

  lemma MarchOrdinal(year: int, d: int, e: int, i: int, k: int)
    requires year >= 1 && d >= 0 && 0 <= e < 4 && 0 <= i < 25 && 0 <= k < 4
    requires year == 400 * d + 100 * e + 4 * i + k
    ensures Ordinal(year, 3, 22) == 146097 * d + 36524 * e + 1461 * i + 365 * k - 284
  {
    MonthStarts(year);
    QuotientStep(year, 4);
    QuotientStep(year, 100);
    QuotientStep(year, 400);
    assert year / 4 == 100 * d + 25 * e + i;
    assert year / 100 == 4 * d + e;
    assert year / 400 == d;
    assert year % 400 == 0 ==> year % 100 == 0;
    assert year % 100 == 0 ==> year % 4 == 0;
  }

  /** Days from March 22 to Easter: offset, weekday term and, for a late moon, a week less. */
  function EasterShift(year: int): int {
    var h := MoonOffset(year);
    var m := (32 + 2 * (year / 100 % 4) + 2 * (year % 100 / 4) - h - year % 100 % 4) % 7;
    h + m - 7 * ((year % 19 + 11 * h + 22 * m) / 451)
  }

  lemma EasterDateOfShift(year: int)
    ensures EasterDate(year) == ((EasterShift(year) + 114) / 31, (EasterShift(year) + 114) % 31 + 1)
  {
  }

  lemma DaysAfterMarch22(year: int, x: int)
    requires year >= 1 && 0 <= x <= 34
    ensures
      var (month, day) := ((x + 114) / 31, (x + 114) % 31 + 1);
      && ValidDate(year, month, day)
      && ((month == 3 && 22 <= day) || (month == 4 && day <= 25))
      && Ordinal(year, month, day) == Ordinal(year, 3, 22) + x
  {
    MonthStarts(year);
  }

  lemma EasterShiftReaches(year: int)
    requires year >= 1
    ensures 0 <= EasterShift(year) <= 34
    ensures Weekday(Ordinal(year, 3, 22) + EasterShift(year)) == SUNDAY
    ensures PaschalFullMoon(year) - 21 <= EasterShift(year) <= PaschalFullMoon(year) - 15
  {
    var a, h := year % 19, MoonOffset(year);
    var m := (32 + 2 * (year / 100 % 4) + 2 * (year % 100 / 4) - h - year % 100 % 4) % 7;
    var n := (a + 11 * h + 22 * m) / 451;
    LateMoons(a, h, m, n);
    OffsetReachesSunday(year, h, m);
    WeekEarlier(Ordinal(year, 3, 22) + h + m, n);
  }

  /** A valid date in March 22 to April 25: the first Sunday strictly after the paschal full moon. */
  predicate IsEaster(year: int, month: int, day: int) {
    && ValidDate(year, month, day)
    && ((month == 3 && 22 <= day) || (month == 4 && day <= 25))
    && var moon := Ordinal(year, 3, PaschalFullMoon(year));
       Weekday(Ordinal(year, month, day)) == SUNDAY && moon < Ordinal(year, month, day) <= moon + 7
  }

  /** For every year the computed date is Easter, with the full moon by the correction of the
      computation and by the tables of Clavius alike. */
  lemma EasterIsFirstSundayAfterFullMoon(year: int)
    requires year >= 1
    ensures PaschalFullMoon(year) == ClaviusFullMoon(year)
    ensures IsEaster(year, EasterDate(year).0, EasterDate(year).1)
  {
    MoonTablesAgree(year);
    EasterShiftReaches(year);
    EasterDateOfShift(year);
    ShiftIsEaster(year, EasterShift(year));
  }

  lemma ShiftIsEaster(year: int, x: int)
    requires year >= 1 && 0 <= x <= 34
    requires Weekday(Ordinal(year, 3, 22) + x) == SUNDAY
    requires PaschalFullMoon(year) - 21 <= x <= PaschalFullMoon(year) - 15
    ensures IsEaster(year, (x + 114) / 31, (x + 114) % 31 + 1)
  {
    DaysAfterMarch22(year, x);
  }

  /** The last term takes a week off exactly for a corrected moon on a Saturday. */
  lemma LateMoons(a: int, h: int, m: int, n: int)
    requires 0 <= a < 19 && 0 <= h < 30 && 0 <= m < 7 && n == (a + 11 * h + 22 * m) / 451
    ensures n == if m == 6 && (h == 29 || (h == 28 && a >= 11)) then 1 else 0
  {
  }

  lemma WeekEarlier(day: int, n: int)
    ensures Weekday(day - 7 * n) == Weekday(day)
  {
  }

  lemma EasterRange(year: int)
    requires year >= 1
    ensures 1 <= EasterDate(year).0 <= 12
    ensures Ordinal(year, 3, 22) <= Ordinal(year, EasterDate(year).0, EasterDate(year).1) <= Ordinal(year, 4, 25)
  {
    EasterShiftReaches(year);
    EasterDateOfShift(year);
    DaysAfterMarch22(year, EasterShift(year));
    MonthStarts(year);
  }

  function EasterSunday(year: int): (day: int)
    requires year >= 1
    ensures Weekday(day) == SUNDAY
    ensures Ordinal(year, 3, 22) <= day <= Ordinal(year, 4, 25)
  {
    EasterIsFirstSundayAfterFullMoon(year);
    EasterRange(year);
    var (month, day) := EasterDate(year);
    Ordinal(year, month, day)
  }

  /** The rule-based closing days after New Year's Day, in the order of the year. */
  function LaterHolidays(year: int): (r: seq<int>)
    requires year >= 1
    ensures |r| == 9
  {
    [ NthWeekday(year, 1, MONDAY, 3),
      NthWeekday(year, 2, MONDAY, 3),
      EasterSunday(year) - 2,
      LastMondayOfMay(year),
      Observed(Ordinal(year, 6, 19)),
      Observed(Ordinal(year, 7, 4)),
      NthWeekday(year, 9, MONDAY, 1),
      NthWeekday(year, 11, THURSDAY, 4),
      Observed(Ordinal(year, 12, 25)) ]
  }

  /** A New Year's Day on a Saturday is not made up for on the Friday before. */
  function HolidayList(year: int): seq<int>
    requires year >= 1
  {
    var newYear := Ordinal(year, 1, 1);
    (if Weekday(newYear) != SATURDAY then [Observed(newYear)] else []) + LaterHolidays(year)
  }

  function Holidays(year: int): set<int>
    requires year >= 1
  {
    set day | day in HolidayList(year)
  }

  lemma NthWeekdayRange(year: int, month: int, weekday: int, nth: int)
    requires 1 <= month <= 12 && 0 <= weekday <= 6
    ensures Weekday(NthWeekday(year, month, weekday, nth)) == weekday
    ensures Ordinal(year, month, 7 * nth - 6) <= NthWeekday(year, month, weekday, nth) <= Ordinal(year, month, 7 * nth)
  {
    var first := Ordinal(year, month, 1);
    var offset := (weekday - Weekday(first)) % 7;
    OffsetReaches(first, weekday);
    WeekEarlier(first + offset, -(nth - 1));
  }

  lemma OffsetReaches(first: int, weekday: int)
    requires 0 <= weekday <= 6
    ensures Weekday(first + (weekday - Weekday(first)) % 7) == weekday
  {
    var w := (first + 6) / 7;
    var offset := (weekday - Weekday(first)) % 7;
    assert first + 6 == 7 * w + Weekday(first);
    if weekday >= Weekday(first) {
      QuotientUnique(first + offset + 6, 7, w, weekday);
    } else {
      QuotientUnique(first + offset + 6, 7, w + 1, weekday);
    }
  }

  lemma ObservedRange(day: int)
    ensures Weekday(Observed(day)) <= FRIDAY
    ensures day - 1 <= Observed(day) <= day + 1
    ensures Weekday(day) != SATURDAY ==> day <= Observed(day)
  {
  }

  /** The closing days ascend through the year, all on Monday to Friday. */
  lemma HolidaysInOrder(year: int)
    requires year >= 1
    ensures Ascending(HolidayList(year))
    ensures forall i :: 0 <= i < |HolidayList(year)| ==>
              Weekday(HolidayList(year)[i]) <= FRIDAY && InYear(HolidayList(year)[i], year)
    ensures |HolidayList(year)| == if Weekday(Ordinal(year, 1, 1)) == SATURDAY then 9 else 10
  {
    LaterInOrder(year);
    FirstHalf(year);
    YearLength(year);
  }

  lemma LaterInOrder(year: int)
    requires year >= 1
    ensures Ascending(LaterHolidays(year))
    ensures forall i :: 0 <= i < 9 ==> Within(year, LaterHolidays(year)[i], 15, 361)
  {
    hide NthWeekday, EasterSunday, LastMondayOfMay, Observed, Ordinal, Weekday, DaysBeforeYear;
    FirstHalf(year);
    SecondHalf(year);
  }

  /** One closing day: a weekday, from `first` to `last` days into its year. */
  predicate Within(year: int, day: int, first: int, last: int) {
    Weekday(day) <= FRIDAY && DaysBeforeYear(year) + first <= day <= DaysBeforeYear(year) + last
  }

  lemma ObservedWithin(year: int, day: int, dayOfYear: int)
    requires day == DaysBeforeYear(year) + dayOfYear
    ensures Within(year, Observed(day), dayOfYear - 1, dayOfYear + 1)
    ensures Weekday(day) != SATURDAY ==> Within(year, Observed(day), dayOfYear, dayOfYear + 1)
  {
    ObservedRange(day);
  }

  lemma NthWithin(year: int, month: int, weekday: int, nth: int, dayOfYear: int)
    requires 1 <= month <= 12 && 0 <= weekday <= FRIDAY
    requires Ordinal(year, month, 7 * nth - 6) == DaysBeforeYear(year) + dayOfYear
    ensures Within(year, NthWeekday(year, month, weekday, nth), dayOfYear, dayOfYear + 6)
  {
    NthWeekdayRange(year, month, weekday, nth);
  }

  lemma GoodFridayWithin(year: int)
    requires year >= 1
    ensures Within(year, EasterSunday(year) - 2, 79, 114)
  {
    MonthStarts(year);
    FridayBefore(EasterSunday(year));
  }

  lemma LastMondayWithin(year: int)
    ensures Within(year, LastMondayOfMay(year), 145, 152)
  {
    MonthStarts(year);
    BackToMonday(Ordinal(year, 5, 31));
  }

  lemma FirstHalf(year: int)
    requires year >= 1
    ensures Weekday(Ordinal(year, 1, 1)) != SATURDAY ==> Within(year, Observed(Ordinal(year, 1, 1)), 1, 2)
    ensures Within(year, NthWeekday(year, 1, MONDAY, 3), 15, 21)
    ensures Within(year, NthWeekday(year, 2, MONDAY, 3), 46, 52)
    ensures Within(year, EasterSunday(year) - 2, 79, 114)
    ensures Within(year, LastMondayOfMay(year), 145, 152)
  {
    MonthStarts(year);
    ObservedWithin(year, Ordinal(year, 1, 1), 1);
    NthWithin(year, 1, MONDAY, 3, 15);
    NthWithin(year, 2, MONDAY, 3, 46);
    GoodFridayWithin(year);
    LastMondayWithin(year);
  }

  lemma FridayBefore(sunday: int)
    requires Weekday(sunday) == SUNDAY
    ensures Weekday(sunday - 2) == FRIDAY
  {
  }

  lemma BackToMonday(day: int)
    ensures Weekday(day - Weekday(day)) == MONDAY
  {
    var w := (day + 6) / 7;
    assert day + 6 == 7 * w + Weekday(day);
    QuotientUnique(day - Weekday(day) + 6, 7, w, 0);
  }

  lemma SecondHalf(year: int)
    requires year >= 1
    ensures Within(year, Observed(Ordinal(year, 6, 19)), 169, 172)
    ensures Within(year, Observed(Ordinal(year, 7, 4)), 184, 187)
    ensures Within(year, NthWeekday(year, 9, MONDAY, 1), 244, 251)
    ensures Within(year, NthWeekday(year, 11, THURSDAY, 4), 326, 333)
    ensures Within(year, Observed(Ordinal(year, 12, 25)), 358, 361)
  {
    MonthStarts(year);
    var leap := if IsLeap(year) then 1 else 0;
    ObservedWithin(year, Ordinal(year, 6, 19), 170 + leap);
    ObservedWithin(year, Ordinal(year, 7, 4), 185 + leap);
    ObservedWithin(year, Ordinal(year, 12, 25), 359 + leap);
    NthWithin(year, 9, MONDAY, 1, 244 + leap);
    NthWithin(year, 11, THURSDAY, 4, 326 + leap);
  }

  lemma {:induction false} AscendingCount(s: seq<int>)
    requires Ascending(s)
    ensures |set x | x in s| == |s|
  {
    if s != [] {
      var last := s[|s| - 1];
      var rest := s[..|s| - 1];
      AscendingCount(rest);
      assert (set x | x in s) == (set x | x in rest) + {last};
      assert last !in rest;
    }
  }

  /** Every year has ten rule-based closing days, nine exactly when January 1 is a Saturday; they
      are distinct weekdays of that very year. */
  lemma HolidaysOfYear(year: int)
    requires year >= 1
    ensures forall day :: day in Holidays(year) ==> Weekday(day) <= FRIDAY && InYear(day, year)
    ensures |Holidays(year)| == if Weekday(Ordinal(year, 1, 1)) == SATURDAY then 9 else 10
  {
    HolidaysInOrder(year);
    AscendingCount(HolidayList(year));
  }

  function IsUsMarketHoliday(day: int): bool
    requires day >= 1
  {
    day in SPECIAL_CLOSURES || day in Holidays(YearOf(day))
  }

  function IsUsBusinessDay(day: int): bool
    requires day >= 1
  {
    Weekday(day) < SATURDAY && !IsUsMarketHoliday(day)
  }

  /** Looking a day up in its own year misses no closing day of any year. */
  lemma LookupMissesNone(day: int, year: int)
    requires day >= 1 && year >= 1
    ensures day in Holidays(year) ==> year == YearOf(day) && IsUsMarketHoliday(day) && !IsUsBusinessDay(day)
  {
    if day in Holidays(year) {
      HolidaysOfYear(year);
      YearUnique(day, year);
    }
  }
}
