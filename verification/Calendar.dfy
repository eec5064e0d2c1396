/** The Gregorian calendar on day numbers: day 1 is 1 January of year 1, a Monday. */
module Calendar {
  datatype Date = Date(year: int, month: int, day: int)

  predicate IsLeap(year: int) {
    year % 4 == 0 && (year % 100 != 0 || year % 400 == 0)
  }

  function MonthLength(year: int, month: int): (n: int)
    ensures 28 <= n <= 31
  {
    if month == 2 then (if IsLeap(year) then 29 else 28)
    else if month == 4 || month == 6 || month == 9 || month == 11 then 30 else 31
  }

  predicate Valid(d: Date) {
    1 <= d.year && 1 <= d.month <= 12 && 1 <= d.day <= MonthLength(d.year, d.month)
  }

  // ----- Months as consecutive numbers -----

  function MonthIndex(year: int, month: int): int { year * 12 + (month - 1) }

  function YearOf(k: int): int { k / 12 }

  function MonthOf(k: int): int { k % 12 + 1 }

  function Length(k: int): (n: int)
    ensures 28 <= n <= 31
  {
    MonthLength(YearOf(k), MonthOf(k))
  }

  /** The day number of the first day of a month. */
  function MonthStart(k: int): int
    requires k >= 12
    decreases k
  {
    if k == 12 then 1 else MonthStart(k - 1) + Length(k - 1)
  }

  function MonthIndexOf(d: Date): int { MonthIndex(d.year, d.month) }

  function DayNumber(d: Date): int
    requires Valid(d)
  {
    MonthStart(MonthIndexOf(d)) + d.day - 1
  }

  /** Monday is 0. */
  function Weekday(day: int): int { (day + 6) % 7 }

  lemma IndexParts(year: int, month: int)
    requires 1 <= month <= 12
    ensures YearOf(MonthIndex(year, month)) == year && MonthOf(MonthIndex(year, month)) == month
  {
  }

  lemma DateMonth(d: Date)
    requires Valid(d)
    ensures MonthIndexOf(d) >= 12 && Length(MonthIndexOf(d)) == MonthLength(d.year, d.month)
  {
    IndexParts(d.year, d.month);
  }

  /** Months follow one another without gap or overlap. */
  lemma {:induction false} MonthsInOrder(j: int, k: int)
    requires 12 <= j < k
    ensures MonthStart(j) + Length(j) <= MonthStart(k)
  {
    if j < k - 1 {
      MonthsInOrder(j, k - 1);
    }
  }

  /** Day numbers order dates by month, then by day. */
  lemma DateOrder(a: Date, b: Date)
    requires Valid(a) && Valid(b)
    ensures DayNumber(a) < DayNumber(b) <==>
      MonthIndexOf(a) < MonthIndexOf(b) || (MonthIndexOf(a) == MonthIndexOf(b) && a.day < b.day)
    ensures DayNumber(a) == DayNumber(b) ==> a == b
  {
    DateMonth(a);
    DateMonth(b);
    if MonthIndexOf(a) < MonthIndexOf(b) {
      MonthsInOrder(MonthIndexOf(a), MonthIndexOf(b));
    } else if MonthIndexOf(b) < MonthIndexOf(a) {
      MonthsInOrder(MonthIndexOf(b), MonthIndexOf(a));
    } else {
      IndexParts(a.year, a.month);
      IndexParts(b.year, b.month);
    }
  }

  /** Years have 365 days, and one more by the leap rule: the closed form of the month-by-month count. */
  lemma {:induction false} YearStart(year: int)
    requires year >= 1
    ensures MonthStart(12 * year) == 365 * (year - 1) + (year - 1) / 4 - (year - 1) / 100 + (year - 1) / 400 + 1
  {
    if year > 1 {
      var y := year - 1;
      YearStart(y);
      YearSteps(y);
      LeapCount(y);
    }
  }

  lemma YearSteps(y: int)
    requires y >= 1
    ensures MonthStart(12 * (y + 1)) == MonthStart(12 * y) + if IsLeap(y) then 366 else 365
  {
    FirstHalf(y);
    SecondHalf(y);
  }

  lemma FirstHalf(y: int)
    requires y >= 1
    ensures MonthStart(12 * y + 6) == MonthStart(12 * y) + if IsLeap(y) then 182 else 181
  {
    OneMonth(y, 1);
    OneMonth(y, 2);
    OneMonth(y, 3);
    OneMonth(y, 4);
    OneMonth(y, 5);
    OneMonth(y, 6);
  }

  lemma SecondHalf(y: int)
    requires y >= 1
    ensures MonthStart(12 * y + 12) == MonthStart(12 * y + 6) + 184
  {
    OneMonth(y, 7);
    OneMonth(y, 8);
    OneMonth(y, 9);
    OneMonth(y, 10);
    OneMonth(y, 11);
    OneMonth(y, 12);
  }

  lemma OneMonth(y: int, month: int)
    requires y >= 1 && 1 <= month <= 12
    ensures MonthStart(12 * y + month) == MonthStart(12 * y + month - 1) + MonthLength(y, month)
  {
    IndexParts(y, month);
  }

  lemma LeapCount(y: int)
    requires y >= 1
    ensures y / 4 - y / 100 + y / 400
         == (y - 1) / 4 - (y - 1) / 100 + (y - 1) / 400 + if IsLeap(y) then 1 else 0
  {
    assert y / 4 == (y - 1) / 4 + if y % 4 == 0 then 1 else 0;
    assert y / 100 == (y - 1) / 100 + if y % 100 == 0 then 1 else 0;
    assert y / 400 == (y - 1) / 400 + if y % 400 == 0 then 1 else 0;
    Divisors(y);
  }

  lemma Divisors(y: int)
    ensures y % 100 == 0 ==> y % 4 == 0
    ensures y % 400 == 0 ==> y % 100 == 0
  {
    if y % 100 == 0 {
      assert y == 4 * (25 * (y / 100));
    }
    if y % 400 == 0 {
      assert y == 100 * (4 * (y / 400));
    }
  }

  /** The week goes on day by day, and 1 January 2026 was a Thursday. */
  lemma WeekdayOfDates(day: int, d: Date)
    requires d.year == 2026 && d.month == 1 && d.day == 1
    ensures 0 <= Weekday(day) <= 6 && Weekday(day + 1) == if Weekday(day) == 6 then 0 else Weekday(day) + 1
    ensures Valid(d) && Weekday(DayNumber(d)) == 3
  {
    hide MonthStart, DayNumber;
    YearStart(d.year);
    NewYear(d);
  }

  lemma NewYear(d: Date)
    requires d.year >= 1 && d.month == 1 && d.day == 1
    ensures Valid(d) && DayNumber(d) == MonthStart(12 * d.year)
  {
  }

  /** Which dates there are. */
  lemma DatesAre(d: Date)
    ensures Valid(d) <==>
      && d.year >= 1 && 1 <= d.day <= 31
      && (d.month in {1, 3, 5, 7, 8, 10, 12}
          || (d.month in {4, 6, 9, 11} && d.day <= 30)
          || (d.month == 2 && (d.day <= 28
              || (d.day == 29 && (d.year % 400 == 0 || (d.year % 4 == 0 && d.year % 100 != 0))))))
  {
  }

  /** The day number in closed form: the years before, the months before, the day. */
  lemma DayNumberIs(d: Date)
    requires Valid(d)
    ensures
      var y := d.year - 1;
      var leapDay := d.month > 2 && (d.year % 400 == 0 || (d.year % 4 == 0 && d.year % 100 != 0));
      DayNumber(d) == 365 * y + y / 4 - y / 100 + y / 400
        + [0, 31, 59, 90, 120, 151, 181, 212, 243, 273, 304, 334][d.month - 1] + (if leapDay then 1 else 0) + d.day
  {
    hide MonthStart, MonthLength;
    YearStart(d.year);
    MonthsOfYear(d.year, d.month);
    assert MonthIndexOf(d) == 12 * d.year + d.month - 1;
    assert DayNumber(d) == MonthStart(12 * d.year + d.month - 1) + d.day - 1;
  }

  lemma {:induction false} MonthsOfYear(y: int, month: int)
    requires y >= 1 && 1 <= month <= 12
    ensures MonthStart(12 * y + month - 1)
         == MonthStart(12 * y) + [0, 31, 59, 90, 120, 151, 181, 212, 243, 273, 304, 334][month - 1]
          + if month > 2 && IsLeap(y) then 1 else 0
  {
    if month > 1 {
      MonthsOfYear(y, month - 1);
      OneMonth(y, month - 1);
    }
  }

  // ----- A day of the month, moved back to the month's end when the month is too short -----

  function Clamped(k: int, day: int): int {
    if day < Length(k) then day else Length(k)
  }

  function ClampedDate(k: int, day: int): (d: Date)
    requires k >= 12 && day >= 1
    ensures Valid(d) && MonthIndexOf(d) == k && d.day == Clamped(k, day)
  {
    var d := Date(YearOf(k), MonthOf(k), Clamped(k, day));
    assert MonthIndexOf(d) == k;
    d
  }

  /** The dates a "day of the month" rule names. */
  predicate OnClampedDay(d: Date, day: int) {
    d.day == Clamped(MonthIndexOf(d), day)
  }

  /** The rule names its own day, or the last day of a month that does not have it. */
  lemma ClampedDayMeans(d: Date, day: int)
    requires Valid(d) && day >= 1
    ensures OnClampedDay(d, day) <==>
      d.day == day || (d.day < day && !Valid(Date(d.year, d.month, d.day + 1)))
  {
    DateMonth(d);
  }

  /** Between the clamped days of consecutive months there is no other one. */
  lemma ClampedDaysAreConsecutive(k: int, day: int, d: Date)
    requires k >= 12 && day >= 1 && Valid(d) && OnClampedDay(d, day)
    ensures MonthIndexOf(d) <= k ==> DayNumber(d) <= DayNumber(ClampedDate(k, day))
    ensures MonthIndexOf(d) > k ==> DayNumber(d) > DayNumber(ClampedDate(k, day))
  {
    DateOrder(d, ClampedDate(k, day));
    DateOrder(ClampedDate(k, day), d);
  }
}
