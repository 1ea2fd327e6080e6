/** The proleptic Gregorian calendar that `std::chrono` supplies to the timestamp code. */
module Calendar {
  datatype Date = Date(year: int, month: int, day: int)

  predicate Leap(y: int) {
    y % 4 == 0 && (y % 100 != 0 || y % 400 == 0)
  }

  function MonthDays(y: int, m: int): (d: int)
    requires 1 <= m <= 12
    ensures 28 <= d <= 31
  {
    if m == 2 then if Leap(y) then 29 else 28
    else if m == 4 || m == 6 || m == 9 || m == 11 then 30
    else 31
  }

  function YearDays(y: int): int {
    if Leap(y) then 366 else 365
  }

  predicate ValidDate(c: Date) {
    1 <= c.month <= 12 && 1 <= c.day <= MonthDays(c.year, c.month)
  }

  // ----- from a date to a day number -----

  /** Days from 0000-01-01 to the first of January. */
  function DaysBeforeYear(y: int): int {
    365 * y + Multiples(y, 4) - Multiples(y, 100) + Multiples(y, 400)
  }

  /** How many multiples of k there are from 0 up to y. */
  function Multiples(y: int, k: int): int
    requires k > 0
  {
    (y + k - 1) / k
  }

  function DaysBeforeMonth(y: int, m: int): int
    requires 1 <= m <= 13
    decreases m
  {
    if m == 1 then 0 else DaysBeforeMonth(y, m - 1) + MonthDays(y, m - 1)
  }

  /** From 0000-01-01 to 1970-01-01. */
  const EPOCH: int := 719528

  /** `sys_days` of a date. */
  function EpochDays(c: Date): int
    requires ValidDate(c)
  {
    DaysBeforeYear(c.year) + DaysBeforeMonth(c.year, c.month) + c.day - 1 - EPOCH
  }

  lemma YearLength(y: int)
    ensures DaysBeforeYear(y + 1) == DaysBeforeYear(y) + YearDays(y)
  {
    OneMore(y, 4);
    OneMore(y, 100);
    OneMore(y, 400);
    Divides(y);
    hide Multiples;
  }

  lemma Divides(y: int)
    ensures (y % 100 == 0 ==> y % 4 == 0) && (y % 400 == 0 ==> y % 100 == 0)
  {
  }

  lemma OneMore(y: int, k: int)
    requires k == 4 || k == 100 || k == 400
    ensures Multiples(y + 1, k) == Multiples(y, k) + if y % k == 0 then 1 else 0
  {
  }

  lemma MonthTable(y: int)
    ensures var l := if Leap(y) then 1 else 0;
            DaysBeforeMonth(y, 1) == 0 && DaysBeforeMonth(y, 2) == 31 && DaysBeforeMonth(y, 3) == 59 + l &&
            DaysBeforeMonth(y, 4) == 90 + l && DaysBeforeMonth(y, 5) == 120 + l && DaysBeforeMonth(y, 6) == 151 + l &&
            DaysBeforeMonth(y, 7) == 181 + l && DaysBeforeMonth(y, 8) == 212 + l && DaysBeforeMonth(y, 9) == 243 + l &&
            DaysBeforeMonth(y, 10) == 273 + l && DaysBeforeMonth(y, 11) == 304 + l && DaysBeforeMonth(y, 12) == 334 + l &&
            DaysBeforeMonth(y, 13) == 365 + l
  {
    hide Leap;
    assert DaysBeforeMonth(y, 3) == DaysBeforeMonth(y, 2) + MonthDays(y, 2);
    assert DaysBeforeMonth(y, 5) == DaysBeforeMonth(y, 4) + MonthDays(y, 4);
    assert DaysBeforeMonth(y, 7) == DaysBeforeMonth(y, 6) + MonthDays(y, 6);
    assert DaysBeforeMonth(y, 9) == DaysBeforeMonth(y, 8) + MonthDays(y, 8);
    assert DaysBeforeMonth(y, 11) == DaysBeforeMonth(y, 10) + MonthDays(y, 10);
    assert DaysBeforeMonth(y, 13) == DaysBeforeMonth(y, 12) + MonthDays(y, 12);
  }

  /** The day after, by the rules of the calendar alone. */
  function NextDay(c: Date): (n: Date)
    requires ValidDate(c)
    ensures ValidDate(n)
  {
    if c.day < MonthDays(c.year, c.month) then c.(day := c.day + 1)
    else if c.month < 12 then Date(c.year, c.month + 1, 1)
    else Date(c.year + 1, 1, 1)
  }

  /** Day numbers count days: the epoch has number 0, and the day after the next number. */
  lemma {:induction false} EpochDaysCount(c: Date)
    requires ValidDate(c)
    ensures EpochDays(Date(1970, 1, 1)) == 0 && EpochDays(NextDay(c)) == EpochDays(c) + 1
  {
    YearLength(c.year);
    MonthTable(c.year);
    hide DaysBeforeYear, Leap;
    assert DaysBeforeYear(1970) == EPOCH by { Epoch1970(); }
  }

  lemma Epoch1970()
    ensures DaysBeforeYear(1970) == EPOCH
  {
  }

  // ----- from a day number to a date -----

  /** The year that day k after 0000-01-01 falls in: the mean-year estimate is off by one at most. */
  function YearOf(k: int): (y: int)
    ensures DaysBeforeYear(y) <= k < DaysBeforeYear(y + 1)
  {
    var y := 400 * k / 146097;
    EstimateClose(k);
    if k < DaysBeforeYear(y) then y - 1
    else if k < DaysBeforeYear(y + 1) then y
    else y + 1
  }

  lemma EstimateClose(k: int)
    ensures var y := 400 * k / 146097; DaysBeforeYear(y - 1) <= k < DaysBeforeYear(y + 2)
  {
    var y := 400 * k / 146097;
    assert 146097 * y <= 400 * k < 146097 * (y + 1);
    MeanYear(y - 1);
    MeanYear(y + 2);
    hide DaysBeforeYear;
  }

  /** A year starts within two days of the mean. */
  lemma MeanYear(y: int)
    ensures 146097 * y - 800 <= 400 * DaysBeforeYear(y) <= 146097 * y + 800
  {
    var a, b, c := Multiples(y, 4), Multiples(y, 100), Multiples(y, 400);
    assert 4 * a <= y + 3 < 4 * a + 4 && 100 * b <= y + 99 < 100 * b + 100 && 400 * c <= y + 399 < 400 * c + 400;
  }

  function MonthOf(y: int, dayOfYear: int, m: int): (r: int)
    requires 1 <= m <= 12 && DaysBeforeMonth(y, m) <= dayOfYear < DaysBeforeMonth(y, 13)
    ensures m <= r <= 12 && DaysBeforeMonth(y, r) <= dayOfYear < DaysBeforeMonth(y, r + 1)
    decreases 12 - m
  {
    if dayOfYear < DaysBeforeMonth(y, m + 1) then m
    else assert m < 12; MonthOf(y, dayOfYear, m + 1)
  }

  /** `year_month_day` of a day number. */
  function DateOf(n: int): (c: Date)
    ensures ValidDate(c)
  {
    var k := n + EPOCH;
    var y := YearOf(k);
    YearLength(y);
    MonthTable(y);
    var dayOfYear := k - DaysBeforeYear(y);
    var m := MonthOf(y, dayOfYear, 1);
    Date(y, m, dayOfYear - DaysBeforeMonth(y, m) + 1)
  }

  /** Every day number is that of its date. */
  lemma {:induction false} EpochDaysOfDate(n: int)
    ensures EpochDays(DateOf(n)) == n
  {
    hide DaysBeforeYear, DaysBeforeMonth, YearOf, MonthOf;
    MonthTable(YearOf(n + EPOCH));
    YearLength(YearOf(n + EPOCH));
  }

  lemma {:induction false} YearsGrow(a: int, b: int)
    requires a <= b
    ensures DaysBeforeYear(a) <= DaysBeforeYear(b)
    decreases b - a
  {
    hide DaysBeforeYear;
    if a < b {
      YearLength(a);
      YearsGrow(a + 1, b);
    }
  }

  lemma {:induction false} MonthsGrow(y: int, a: int, b: int)
    requires 1 <= a <= b <= 13
    ensures DaysBeforeMonth(y, a) <= DaysBeforeMonth(y, b)
    decreases b - a
  {
    if a < b {
      MonthsGrow(y, a, b - 1);
    }
  }

  /** Every valid date is that of its day number. */
  lemma {:induction false} DateOfEpochDays(c: Date)
    requires ValidDate(c)
    ensures DateOf(EpochDays(c)) == c
  {
    hide EpochDays, DaysBeforeYear, DaysBeforeMonth, DateOf, MonthDays;
    var n := EpochDays(c);
    var d := DateOf(n);
    EpochDaysOfDate(n);
    InYear(c);
    InYear(d);
    SameYear(c.year, d.year, n + EPOCH);
    SameMonth(c.year, c.month, d.month, n + EPOCH - DaysBeforeYear(c.year));
    SameDay(c, d);
  }

  lemma SameDay(a: Date, b: Date)
    requires ValidDate(a) && ValidDate(b) && a.year == b.year && a.month == b.month && EpochDays(a) == EpochDays(b)
    ensures a == b
  {
    hide DaysBeforeYear, DaysBeforeMonth;
  }

  lemma SameYear(a: int, b: int, k: int)
    requires DaysBeforeYear(a) <= k < DaysBeforeYear(a + 1) && DaysBeforeYear(b) <= k < DaysBeforeYear(b + 1)
    ensures a == b
  {
    hide DaysBeforeYear;
    if a < b {
      YearsGrow(a + 1, b);
    }
    if b < a {
      YearsGrow(b + 1, a);
    }
  }

  lemma SameMonth(y: int, a: int, b: int, k: int)
    requires 1 <= a <= 12 && 1 <= b <= 12
    requires DaysBeforeMonth(y, a) <= k < DaysBeforeMonth(y, a + 1) && DaysBeforeMonth(y, b) <= k < DaysBeforeMonth(y, b + 1)
    ensures a == b
  {
    hide DaysBeforeMonth;
    if a < b {
      MonthsGrow(y, a + 1, b);
    }
    if b < a {
      MonthsGrow(y, b + 1, a);
    }
  }

  /** A date's number lies in its year, and in its month. */
  lemma InYear(c: Date)
    requires ValidDate(c)
    ensures DaysBeforeYear(c.year) <= EpochDays(c) + EPOCH < DaysBeforeYear(c.year + 1)
    ensures var inYear := EpochDays(c) + EPOCH - DaysBeforeYear(c.year);
            DaysBeforeMonth(c.year, c.month) <= inYear < DaysBeforeMonth(c.year, c.month + 1)
  {
    YearLength(c.year);
    MonthTable(c.year);
    MonthsGrow(c.year, c.month + 1, 13);
    hide DaysBeforeYear, Leap;
  }

  // ----- weekdays -----

  /** 0 is Sunday; the epoch was a Thursday. */
  function Weekday(n: int): (w: nat)
    ensures w < 7
  {
    (n + 4) % 7
  }
}
