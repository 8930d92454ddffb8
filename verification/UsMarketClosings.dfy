/** Which days the rule-based closing days are, said without the arithmetic that finds them, and with them
    which days are business days. */
module UsMarketClosings {
  import opened Arithmetic
  import opened Calendar
  import opened Collections
  import opened UsMarketHolidays

  // ----- the nth weekday of a month -----

  /** The days of a weekday from one day up to another. */
  function WeekdaysWithin(weekday: int, first: int, day: int): set<int> {
    set d | first <= d < day && Weekday(d) == weekday
  }

  /** The day is of the weekday and in the month, with nth - 1 days of the weekday before it in the month. */
  predicate IsNthWeekday(day: int, year: int, month: int, weekday: int, nth: nat)
    requires 1 <= month <= 12 && nth >= 1
  {
    && Weekday(day) == weekday
    && Ordinal(year, month, 1) <= day <= Ordinal(year, month, DaysInMonth(year, month))
    && |WeekdaysWithin(weekday, Ordinal(year, month, 1), day)| == nth - 1
  }

  lemma WeekApart(d1: int, d2: int)
    requires Weekday(d1) == Weekday(d2) && d1 < d2
    ensures d2 - d1 >= 7
  {
    assert d1 + 6 == 7 * ((d1 + 6) / 7) + Weekday(d1) && d2 + 6 == 7 * ((d2 + 6) / 7) + Weekday(d2);
    assert d2 - d1 == 7 * ((d2 + 6) / 7 - (d1 + 6) / 7);
  }

  lemma {:induction false} CountWeekdays(weekday: int, first: int, day: int, n: nat)
    requires Weekday(day) == weekday && 0 <= day - first - 7 * n < 7
    ensures |WeekdaysWithin(weekday, first, day)| == n
    decreases n
  {
    forall d | d in WeekdaysWithin(weekday, first, day)
      ensures day - d >= 7
    {
      WeekApart(d, day);
    }
    if n == 0 {
      assert WeekdaysWithin(weekday, first, day) == {};
    } else {
      WeekEarlier(day, 1);
      CountWeekdays(weekday, first, day - 7, n - 1);
      assert WeekdaysWithin(weekday, first, day) == WeekdaysWithin(weekday, first, day - 7) + {day - 7};
    }
  }

  lemma MoreBefore(weekday: int, first: int, d1: int, d2: int)
    requires first <= d1 < d2 && Weekday(d1) == weekday
    ensures |WeekdaysWithin(weekday, first, d1)| < |WeekdaysWithin(weekday, first, d2)|
  {
    SubsetSize(WeekdaysWithin(weekday, first, d1) + {d1}, WeekdaysWithin(weekday, first, d2));
  }

  /** The computed day is the nth weekday of the month, and no other day is. */
  lemma NthWeekdayIs(year: int, month: int, weekday: int, nth: nat, day: int)
    requires 1 <= month <= 12 && 0 <= weekday <= 6 && 1 <= nth <= 4
    ensures IsNthWeekday(day, year, month, weekday, nth) <==> day == NthWeekday(year, month, weekday, nth)
  {
    var computed := NthWeekday(year, month, weekday, nth);
    NthWeekdayRange(year, month, weekday, nth);
    CountWeekdays(weekday, Ordinal(year, month, 1), computed, nth - 1);
    if IsNthWeekday(day, year, month, weekday, nth) {
      if day < computed { MoreBefore(weekday, Ordinal(year, month, 1), day, computed); }
      if computed < day { MoreBefore(weekday, Ordinal(year, month, 1), computed, day); }
    }
  }

  // ----- the last Monday of May -----

  predicate IsLastMondayOfMay(day: int, year: int) {
    && Weekday(day) == MONDAY && Ordinal(year, 5, 1) <= day <= Ordinal(year, 5, 31)
    && forall d :: day < d <= Ordinal(year, 5, 31) ==> Weekday(d) != MONDAY
  }

  lemma LastMondayIs(year: int, day: int)
    ensures IsLastMondayOfMay(day, year) <==> day == LastMondayOfMay(year)
  {
    var computed := LastMondayOfMay(year);
    BackToMonday(Ordinal(year, 5, 31));
    forall d | computed < d <= Ordinal(year, 5, 31)
      ensures Weekday(d) != MONDAY
    {
      if Weekday(d) == MONDAY { WeekApart(computed, d); }
    }
  }

  // ----- observed days -----

  /** The holiday itself if it is on Monday to Friday, else the neighbouring day that is. */
  predicate IsObserved(day: int, holiday: int) {
    && Weekday(day) <= FRIDAY
    && (day == holiday || (Weekday(holiday) >= SATURDAY && (day == holiday - 1 || day == holiday + 1)))
  }

  lemma ObservedIs(day: int, holiday: int)
    ensures IsObserved(day, holiday) <==> day == Observed(holiday)
  {
  }

  // ----- closing days -----

  /** The Friday before the first Sunday after the paschal full moon. */
  predicate IsGoodFriday(day: int, year: int) {
    && Weekday(day + 2) == SUNDAY
    && var moon := Ordinal(year, 3, PaschalFullMoon(year));
       moon < day + 2 <= moon + 7
  }

  lemma GoodFridayIs(year: int, day: int)
    requires year >= 1
    ensures IsGoodFriday(day, year) <==> day + 2 == EasterSunday(year)
  {
    EasterIsFirstSundayAfterFullMoon(year);
    if IsGoodFriday(day, year) {
      var easter := EasterSunday(year);
      if day + 2 < easter { WeekApart(day + 2, easter); }
      if easter < day + 2 { WeekApart(easter, day + 2); }
    }
  }

  /** The closing days of a year: New Year's Day, unless it is a Saturday; Martin Luther King Day, Presidents'
      Day, Good Friday, Memorial Day, Juneteenth, Independence Day, Labor Day, Thanksgiving, Christmas. */
  predicate IsClosing(day: int, year: int)
    requires year >= 1
  {
    || (Weekday(Ordinal(year, 1, 1)) != SATURDAY && IsObserved(day, Ordinal(year, 1, 1)))
    || IsNthWeekday(day, year, 1, MONDAY, 3)
    || IsNthWeekday(day, year, 2, MONDAY, 3)
    || IsGoodFriday(day, year)
    || IsLastMondayOfMay(day, year)
    || IsObserved(day, Ordinal(year, 6, 19))
    || IsObserved(day, Ordinal(year, 7, 4))
    || IsNthWeekday(day, year, 9, MONDAY, 1)
    || IsNthWeekday(day, year, 11, THURSDAY, 4)
    || IsObserved(day, Ordinal(year, 12, 25))
  }

  /** The holidays of a year are exactly its closing days. */
  lemma HolidaysAreClosings(day: int, year: int)
    requires year >= 1
    ensures day in Holidays(year) <==> IsClosing(day, year)
  {
    hide IsNthWeekday, NthWeekday, IsLastMondayOfMay, LastMondayOfMay, IsObserved, Observed, EasterSunday, Ordinal,
         IsGoodFriday;
    GoodFridayIs(year, day);
    NthWeekdayIs(year, 1, MONDAY, 3, day);
    NthWeekdayIs(year, 2, MONDAY, 3, day);
    NthWeekdayIs(year, 9, MONDAY, 1, day);
    NthWeekdayIs(year, 11, THURSDAY, 4, day);
    LastMondayIs(year, day);
    ObservedIs(day, Ordinal(year, 1, 1));
    ObservedIs(day, Ordinal(year, 6, 19));
    ObservedIs(day, Ordinal(year, 7, 4));
    ObservedIs(day, Ordinal(year, 12, 25));
    ListedAre(day, year);
  }

  lemma ListedAre(day: int, year: int)
    requires year >= 1
    ensures day in Holidays(year) <==>
              || (Weekday(Ordinal(year, 1, 1)) != SATURDAY && day == Observed(Ordinal(year, 1, 1)))
              || day == NthWeekday(year, 1, MONDAY, 3) || day == NthWeekday(year, 2, MONDAY, 3)
              || day + 2 == EasterSunday(year) || day == LastMondayOfMay(year)
              || day == Observed(Ordinal(year, 6, 19)) || day == Observed(Ordinal(year, 7, 4))
              || day == NthWeekday(year, 9, MONDAY, 1) || day == NthWeekday(year, 11, THURSDAY, 4)
              || day == Observed(Ordinal(year, 12, 25))
  {
    hide NthWeekday, LastMondayOfMay, Observed, EasterSunday, Ordinal, Weekday;
    var later := LaterHolidays(year);
    assert day in HolidayList(year) <==>
        (Weekday(Ordinal(year, 1, 1)) != SATURDAY && day == Observed(Ordinal(year, 1, 1))) || day in later;
  }

  /** A business day is a day from Monday to Friday that is neither a closing day of any year nor the day of
      mourning of January 9, 2025. */
  lemma BusinessDayIff(day: int)
    requires day >= 1
    ensures IsUsBusinessDay(day) <==>
              && Weekday(day) <= FRIDAY && day != Ordinal(2025, 1, 9)
              && forall year :: year >= 1 ==> !IsClosing(day, year)
  {
    hide IsClosing, Holidays, Ordinal, Weekday;
    forall year | year >= 1
      ensures IsClosing(day, year) ==> IsUsMarketHoliday(day)
    {
      HolidaysAreClosings(day, year);
      LookupMissesNone(day, year);
    }
    HolidaysAreClosings(day, YearOf(day));
  }
}
