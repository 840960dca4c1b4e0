/**
  Calendar dates as Python's `datetime.date` represents them: a proleptic Gregorian
  (year, month, day) triple with year in 1..9999, its day number `Ordinal`
  (`date.toordinal()`, 0001-01-01 is day 1) and `Weekday` (`date.weekday()`, Monday = 0).
*/
module Calendar {

  datatype Ymd = Ymd(year: int, month: int, day: int)

  const MinYear := 1
  const MaxYear := 9999

  predicate IsLeap(y: int) {
    y % 4 == 0 && (y % 100 != 0 || y % 400 == 0)
  }

  function DaysInMonth(y: int, m: int): (n: int)
    requires 1 <= m <= 12
    ensures 28 <= n <= 31
  {
    if m == 2 then (if IsLeap(y) then 29 else 28)
    else if m == 4 || m == 6 || m == 9 || m == 11 then 30
    else 31
  }

  predicate IsValidDate(d: Ymd) {
    MinYear <= d.year <= MaxYear && 1 <= d.month <= 12 && 1 <= d.day <= DaysInMonth(d.year, d.month)
  }

  /** A date Python's `datetime.date` can hold. */
  type Date = d: Ymd | IsValidDate(d) witness Ymd(1, 1, 1)

  /** 0001-01-01, a Monday. */
  const MinDate: Date := Ymd(MinYear, 1, 1)

  /** The day number of 9999-12-31, the last date Python can represent. */
  const MaxOrdinal := 3652059

  function DaysInYear(y: int): int {
    if IsLeap(y) then 366 else 365
  }

  /** Days in the years before `y`, counted year by year. */
  function DaysBeforeYear(y: int): int
    requires y >= 1
    decreases y
  {
    if y == 1 then 0 else DaysBeforeYear(y - 1) + DaysInYear(y - 1)
  }

  /** `DaysBeforeYear` agrees with the closed form of Python's `_days_before_year`. */
  lemma {:induction false} DaysBeforeYearFormula(y: int)
    requires y >= 1
    ensures DaysBeforeYear(y) == (y - 1) * 365 + (y - 1) / 4 - (y - 1) / 100 + (y - 1) / 400
    decreases y
  {
    if y > 1 {
      DaysBeforeYearFormula(y - 1);
      DivStep4(y - 1);
      DivStep100(y - 1);
      DivStep400(y - 1);
      DivisorsOfCentury(y - 1);
    }
  }

  lemma DivisorsOfCentury(p: int)
    ensures p % 400 == 0 ==> p % 100 == 0
    ensures p % 100 == 0 ==> p % 4 == 0
  {
    if p % 400 == 0 {
      assert p == 400 * (p / 400);
      assert p == 100 * (4 * (p / 400));
    }
    if p % 100 == 0 {
      assert p == 100 * (p / 100);
      assert p == 4 * (25 * (p / 100));
    }
  }

  lemma DivStep4(p: int)
    requires p >= 1
    ensures p / 4 == (p - 1) / 4 + (if p % 4 == 0 then 1 else 0)
  {
  }

  lemma DivStep100(p: int)
    requires p >= 1
    ensures p / 100 == (p - 1) / 100 + (if p % 100 == 0 then 1 else 0)
  {
  }

  lemma DivStep400(p: int)
    requires p >= 1
    ensures p / 400 == (p - 1) / 400 + (if p % 400 == 0 then 1 else 0)
  {
  }

  /** Days in the months of year `y` before month `m` (Python's `_days_before_month`). */
  function DaysBeforeMonth(y: int, m: int): int
    requires 1 <= m <= 12
  {
    [0, 31, 59, 90, 120, 151, 181, 212, 243, 273, 304, 334][m - 1] + (if m > 2 && IsLeap(y) then 1 else 0)
  }

  /** The day number of `d`: `d.toordinal()`. */
  function Ordinal(d: Date): int {
    DaysBeforeYear(d.year) + DaysBeforeMonth(d.year, d.month) + d.day
  }

  /** `d.weekday()`: Monday is 0 and Sunday is 6. */
  function Weekday(d: Date): (w: int)
    ensures 0 <= w < 7
  {
    (Ordinal(d) + 6) % 7
  }

  lemma {:induction false} YearsApart(y1: int, y2: int)
    requires 1 <= y1 <= y2
    ensures DaysBeforeYear(y2) >= DaysBeforeYear(y1) + 365 * (y2 - y1)
    decreases y2 - y1
  {
    if y1 < y2 {
      YearsApart(y1, y2 - 1);
    }
  }

  lemma MonthsApart(y: int, m1: int, m2: int)
    requires 1 <= m1 < m2 <= 12
    ensures DaysBeforeMonth(y, m2) >= DaysBeforeMonth(y, m1) + DaysInMonth(y, m1)
  {
  }

  lemma LastDayOfYear(y: int)
    requires y >= 1
    ensures DaysBeforeYear(y) + DaysBeforeMonth(y, 12) + 31 == DaysBeforeYear(y + 1)
  {
  }

  lemma EndOfTime(y: int)
    requires y == MaxYear
    ensures DaysBeforeYear(y + 1) == MaxOrdinal
  {
    DaysBeforeYearFormula(y + 1);
  }

  lemma OrdinalUpperBound(d: Date)
    ensures Ordinal(d) <= DaysBeforeYear(d.year + 1)
  {
    if d.month < 12 {
      MonthsApart(d.year, d.month, 12);
    }
    LastDayOfYear(d.year);
  }

  /** Day numbers run from 1 (0001-01-01) to `MaxOrdinal` (9999-12-31). */
  lemma OrdinalRange(d: Date)
    ensures 1 <= Ordinal(d) <= MaxOrdinal
    ensures Ordinal(d) == 1 ==> d == MinDate
  {
    YearsApart(1, d.year);
    OrdinalUpperBound(d);
    YearsApart(d.year + 1, MaxYear + 1);
    EndOfTime(MaxYear);
    if d.year > 1 {
      YearsApart(1, d.year);
    }
  }

  /** The next calendar day, as `d + timedelta(days=1)`. */
  function NextDay(d: Date): (r: Date)
    requires Ordinal(d) < MaxOrdinal
    ensures Ordinal(r) == Ordinal(d) + 1
  {
    if d.day < DaysInMonth(d.year, d.month) then Ymd(d.year, d.month, d.day + 1)
    else if d.month < 12 then
      MonthsApart(d.year, d.month, d.month + 1);
      Ymd(d.year, d.month + 1, 1)
    else
      LastDayOfYear(d.year);
      OrdinalRange(d);
      if d.year == MaxYear then EndOfTime(d.year); assert false; d
      else Ymd(d.year + 1, 1, 1)
  }

  /** The previous calendar day, as `d - timedelta(days=1)`. */
  function PrevDay(d: Date): (r: Date)
    requires Ordinal(d) > 1
    ensures Ordinal(r) == Ordinal(d) - 1
  {
    if d.day > 1 then Ymd(d.year, d.month, d.day - 1)
    else if d.month > 1 then
      MonthsApart(d.year, d.month - 1, d.month);
      Ymd(d.year, d.month - 1, DaysInMonth(d.year, d.month - 1))
    else
      LastDayOfYear(d.year - 1);
      Ymd(d.year - 1, 12, 31)
  }

  /** Python's comparison of dates: by (year, month, day). */
  predicate Before(a: Ymd, b: Ymd) {
    a.year < b.year || (a.year == b.year && (a.month < b.month || (a.month == b.month && a.day < b.day)))
  }

  predicate NotAfter(a: Ymd, b: Ymd) {
    a == b || Before(a, b)
  }

  lemma BeforeOrdinal(a: Date, b: Date)
    requires Before(a, b)
    ensures Ordinal(a) < Ordinal(b)
  {
    if a.year < b.year {
      OrdinalUpperBound(a);
      YearsApart(a.year + 1, b.year);
    } else if a.month < b.month {
      MonthsApart(a.year, a.month, b.month);
    }
  }

  /** Comparing dates field by field agrees with comparing their day numbers. */
  lemma BeforeIffOrdinalLess(a: Date, b: Date)
    ensures Before(a, b) <==> Ordinal(a) < Ordinal(b)
  {
    if Before(a, b) {
      BeforeOrdinal(a, b);
    } else if a != b {
      BeforeOrdinal(b, a);
    }
  }

  /** Two dates with the same day number are the same date. */
  lemma OrdinalInjective(a: Date, b: Date)
    requires Ordinal(a) == Ordinal(b)
    ensures a == b
  {
    if a != b {
      if Before(a, b) { BeforeOrdinal(a, b); } else { BeforeOrdinal(b, a); }
    }
  }

  /** `d + timedelta(days=n)`. */
  function AddDays(d: Date, n: nat): (r: Date)
    requires Ordinal(d) + n <= MaxOrdinal
    ensures Ordinal(r) == Ordinal(d) + n
    decreases n
  {
    if n == 0 then d else NextDay(AddDays(d, n - 1))
  }

  /** `d - timedelta(days=n)`. */
  function SubDays(d: Date, n: nat): (r: Date)
    requires Ordinal(d) - n >= 1
    ensures Ordinal(r) == Ordinal(d) - n
    decreases n
  {
    if n == 0 then d else PrevDay(SubDays(d, n - 1))
  }
}
