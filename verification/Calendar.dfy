/** The proleptic Gregorian calendar. A day is its ordinal: day 1 is January 1 of year 1. */
module Calendar {
  import opened Arithmetic

  const MONDAY := 0
  const THURSDAY := 3
  const FRIDAY := 4
  const SATURDAY := 5
  const SUNDAY := 6

  predicate IsLeap(year: int) {
    year % 4 == 0 && (year % 100 != 0 || year % 400 == 0)
  }

  function DaysBeforeYear(year: int): int {
    365 * (year - 1) + (year - 1) / 4 - (year - 1) / 100 + (year - 1) / 400
  }

  function DaysInMonth(year: int, month: int): (n: int)
    requires 1 <= month <= 12
    ensures 28 <= n <= 31
  {
    if month == 2 then (if IsLeap(year) then 29 else 28)
    else if month == 4 || month == 6 || month == 9 || month == 11 then 30
    else 31
  }

  function DaysBeforeMonth(year: int, month: int): int
    requires 1 <= month <= 12
  {
    if month == 1 then 0 else DaysBeforeMonth(year, month - 1) + DaysInMonth(year, month - 1)
  }

  lemma MonthStarts(year: int)
    ensures
      var leap := if IsLeap(year) then 1 else 0;
      && DaysBeforeMonth(year, 1) == 0 && DaysBeforeMonth(year, 2) == 31
      && DaysBeforeMonth(year, 3) == 59 + leap && DaysBeforeMonth(year, 4) == 90 + leap
      && DaysBeforeMonth(year, 5) == 120 + leap && DaysBeforeMonth(year, 6) == 151 + leap
      && DaysBeforeMonth(year, 7) == 181 + leap && DaysBeforeMonth(year, 8) == 212 + leap
      && DaysBeforeMonth(year, 9) == 243 + leap && DaysBeforeMonth(year, 10) == 273 + leap
      && DaysBeforeMonth(year, 11) == 304 + leap && DaysBeforeMonth(year, 12) == 334 + leap
  {
    var m3 := DaysBeforeMonth(year, 3);
    assert DaysBeforeMonth(year, 5) == m3 + 61;
    assert DaysBeforeMonth(year, 7) == m3 + 122;
    assert DaysBeforeMonth(year, 9) == m3 + 184;
    assert DaysBeforeMonth(year, 11) == m3 + 245;
  }

  predicate ValidDate(year: int, month: int, day: int) {
    year >= 1 && 1 <= month <= 12 && 1 <= day <= DaysInMonth(year, month)
  }

  function Ordinal(year: int, month: int, day: int): int
    requires 1 <= month <= 12
  {
    DaysBeforeYear(year) + DaysBeforeMonth(year, month) + day
  }

  /** 0 is Monday. */
  function Weekday(day: int): (w: int)
    ensures 0 <= w <= 6
  {
    (day + 6) % 7
  }

  predicate InYear(day: int, year: int) {
    DaysBeforeYear(year) < day <= DaysBeforeYear(year + 1)
  }

  /** A year has 365 days, a leap year one more. */
  lemma YearLength(year: int)
    requires year >= 1
    ensures DaysBeforeYear(year + 1) == DaysBeforeYear(year) + 365 + (if IsLeap(year) then 1 else 0)
  {
    QuotientStep(year, 4);
    QuotientStep(year, 100);
    QuotientStep(year, 400);
    FactorDivides(year, 4, 100, 400);
    FactorDivides(year, 25, 4, 100);
  }

  lemma FactorDivides(y: int, d: int, k: int, multiple: int)
    requires multiple == d * k && multiple > 0 && k > 0
    ensures y % multiple == 0 ==> y % k == 0
  {
    if y % multiple == 0 {
      var q := y / multiple;
      assert y == q * multiple;
      assert q * (d * k) == (q * d) * k;
      QuotientUnique(y, k, q * d, 0);
    }
  }

  lemma QuotientStep(y: int, k: int)
    requires y >= 1 && k > 0
    ensures y / k == (y - 1) / k + (if y % k == 0 then 1 else 0)
  {
    var q, r := (y - 1) / k, (y - 1) % k;
    assert y == q * k + (r + 1);
    if r + 1 == k {
      assert y == (q + 1) * k;
      QuotientUnique(y, k, q + 1, 0);
    } else {
      QuotientUnique(y, k, q, r + 1);
    }
  }

  lemma {:induction false} YearsAscend(y1: int, y2: int)
    requires 1 <= y1 <= y2
    ensures DaysBeforeYear(y1) <= DaysBeforeYear(y2)
    decreases y2 - y1
  {
    if y1 < y2 {
      YearLength(y1);
      YearsAscend(y1 + 1, y2);
    }
  }

  /** The year of a day, counted up from `from`. */
  function YearFrom(day: int, from: int): (y: int)
    requires from >= 1 && day > DaysBeforeYear(from)
    ensures y >= from && InYear(day, y)
    decreases day - DaysBeforeYear(from)
  {
    YearLength(from);
    if day <= DaysBeforeYear(from + 1) then from else YearFrom(day, from + 1)
  }

  function YearOf(day: int): (y: int)
    requires day >= 1
    ensures y >= 1 && InYear(day, y)
  {
    YearFrom(day, 1)
  }

  /** A day lies in one year only. */
  lemma YearUnique(day: int, y: int)
    requires day >= 1 && y >= 1 && InYear(day, y)
    ensures YearOf(day) == y
  {
    var z := YearOf(day);
    if z < y { YearsAscend(z + 1, y); }
    if y < z { YearsAscend(y + 1, z); }
  }
}
