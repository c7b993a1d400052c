/**
 The proleptic Gregorian calendar in UTC, on which the cron search of internal/cron/cron.go walks.

 An instant is an `int`: nanoseconds since 1 January of year 1, the zero of Go's `time.Time`.
 A day is numbered from that same date, so truncating an instant to a minute, an hour or a day
 is rounding down to a multiple, for negative instants too.
 */
module Calendar {

  const MINUTE: int := 60_000_000_000
  const HOUR: int := 60 * MINUTE
  const DAY: int := 24 * HOUR

  datatype Date = Date(year: int, month: int, day: int) {
    predicate Valid() {
      1 <= month <= 12 && 1 <= day <= DaysInMonth(year, month)
    }
  }

  predicate Leap(y: int) {
    y % 4 == 0 && (y % 100 != 0 || y % 400 == 0)
  }

  function DaysInMonth(y: int, m: int): (d: int)
    requires 1 <= m <= 12
    ensures 28 <= d <= 31
  {
    if m == 2 then (if Leap(y) then 29 else 28)
    else if m == 4 || m == 6 || m == 9 || m == 11 then 30
    else 31
  }

  function DaysBeforeMonth(y: int, m: int): int
    requires 1 <= m <= 13
  {
    [0, 31, 59, 90, 120, 151, 181, 212, 243, 273, 304, 334, 365][m - 1]
    + if m > 2 && Leap(y) then 1 else 0
  }

  /** The number of days from 1 January of year 1 to 1 January of year `y`. */
  function DaysBeforeYear(y: int): int {
    var p := y - 1;
    365 * p + p / 4 - p / 100 + p / 400
  }

  function DayNumber(d: Date): int
    requires 1 <= d.month <= 12
  {
    DaysBeforeYear(d.year) + DaysBeforeMonth(d.year, d.month) + d.day - 1
  }

  // From a day number back to a date: split off 400-, 100-, 4- and 1-year cycles.

  function YearOf(n: int): int {
    var r400 := n % 146097;
    var c100 := if r400 / 36524 == 4 then 3 else r400 / 36524;
    var r100 := r400 - 36524 * c100;
    var c4 := r100 / 1461;
    var r4 := r100 - 1461 * c4;
    var c1 := if r4 / 365 == 4 then 3 else r4 / 365;
    400 * (n / 146097) + 100 * c100 + 4 * c4 + c1 + 1
  }

  function MonthOf(y: int, yday: int): (m: int)
    requires 0 <= yday < DaysBeforeMonth(y, 13)
    ensures 1 <= m <= 12
    ensures DaysBeforeMonth(y, m) <= yday < DaysBeforeMonth(y, m + 1)
  {
    MonthFrom(y, yday, 1)
  }

  function MonthFrom(y: int, yday: int, m: int): (r: int)
    requires 1 <= m <= 12
    requires DaysBeforeMonth(y, m) <= yday < DaysBeforeMonth(y, 13)
    ensures m <= r <= 12
    ensures DaysBeforeMonth(y, r) <= yday < DaysBeforeMonth(y, r + 1)
    decreases 12 - m
  {
    if yday < DaysBeforeMonth(y, m + 1) then m else MonthFrom(y, yday, m + 1)
  }

  function DateOf(n: int): (d: Date)
    ensures d.Valid() && DayNumber(d) == n
  {
    YearContains(n);
    var y := YearOf(n);
    YearLength(y);
    var yday := n - DaysBeforeYear(y);
    var m := MonthOf(y, yday);
    MonthLength(y, m);
    Date(y, m, yday - DaysBeforeMonth(y, m) + 1)
  }

  function Weekday(n: int): (w: int)
    ensures 0 <= w <= 6
  {
    (n + 1) % 7  // 1 January of year 1 is a Monday
  }

  lemma MonthLength(y: int, m: int)
    requires 1 <= m <= 12
    ensures DaysBeforeMonth(y, m + 1) == DaysBeforeMonth(y, m) + DaysInMonth(y, m)
  {
  }

  /** Each quotient in `DaysBeforeYear` steps exactly in the years its divisor divides. */
  lemma QuotientSteps(y: int)
    ensures y / 4 == (y - 1) / 4 + if y % 4 == 0 then 1 else 0
    ensures y / 100 == (y - 1) / 100 + if y % 100 == 0 then 1 else 0
    ensures y / 400 == (y - 1) / 400 + if y % 400 == 0 then 1 else 0
  {
  }

  lemma YearLength(y: int)
    ensures DaysBeforeYear(y + 1) == DaysBeforeYear(y) + DaysBeforeMonth(y, 13)
    ensures DaysBeforeMonth(y, 13) == if Leap(y) then 366 else 365
  {
    QuotientSteps(y);
    assert y % 400 == 0 ==> y % 100 == 0;
    assert y % 100 == 0 ==> y % 4 == 0;
  }

  lemma CycleDays(a: int, b: int, c: int, d: int)
    requires 0 <= b <= 3 && 0 <= c <= 24 && 0 <= d <= 3
    ensures DaysBeforeYear(400 * a + 100 * b + 4 * c + d + 1) == 146097 * a + 36524 * b + 1461 * c + 365 * d
  {
    var p := 400 * a + 100 * b + 4 * c + d;
    assert p / 4 == 100 * a + 25 * b + c;
    assert p / 100 == 4 * a + b;
    assert p / 400 == a;
  }

  /** Where each cycle of years ends decides which of its four-year groups end in a leap year. */
  lemma LastOfFour(a: int, b: int, c: int)
    requires 0 <= b <= 3 && 0 <= c <= 24
    ensures Leap(400 * a + 100 * b + 4 * c + 4) <==> c < 24 || b == 3
  {
    var y := 400 * a + 100 * b + 4 * c + 4;
    assert y / 4 == 100 * a + 25 * b + c + 1;
    if c < 24 {
      assert y / 100 == 4 * a + b;
    } else {
      assert y / 100 == 4 * a + b + 1;
      assert y / 400 == if b == 3 then a + 1 else a;
    }
  }

  /** `YearOf` names the year whose first and last day enclose day `n`. */
  lemma YearContains(n: int)
    ensures DaysBeforeYear(YearOf(n)) <= n < DaysBeforeYear(YearOf(n) + 1)
  {
    var a, r400 := n / 146097, n % 146097;
    var b := if r400 / 36524 == 4 then 3 else r400 / 36524;
    var r100 := r400 - 36524 * b;
    var c := r100 / 1461;
    var r4 := r100 - 1461 * c;
    var d := if r4 / 365 == 4 then 3 else r4 / 365;
    CycleDays(a, b, c, d);
    YearLength(YearOf(n));
    LastOfFour(a, b, c);
    hide DaysBeforeYear, DaysBeforeMonth, Leap;
  }

  lemma {:induction false} YearsIncrease(y: int, z: int)
    requires y < z
    ensures DaysBeforeYear(y + 1) <= DaysBeforeYear(z)
    decreases z - y
  {
    if y + 1 < z {
      YearLength(y + 1);
      YearsIncrease(y + 1, z);
    }
  }

  lemma MonthsIncrease(y: int, m: int, k: int)
    requires 1 <= m < k <= 13
    ensures DaysBeforeMonth(y, m + 1) <= DaysBeforeMonth(y, k)
  {
  }

  /** A date lies inside its year and inside its month. */
  lemma DateWithin(d: Date)
    requires d.Valid()
    ensures DaysBeforeYear(d.year) <= DayNumber(d) < DaysBeforeYear(d.year + 1)
    ensures DaysBeforeMonth(d.year, d.month) <= DayNumber(d) - DaysBeforeYear(d.year) < DaysBeforeMonth(d.year, d.month + 1)
  {
    YearLength(d.year);
    MonthLength(d.year, d.month);
    if d.month < 12 { MonthsIncrease(d.year, d.month, 13); }
  }

  /** Valid dates on the same day are equal. */
  lemma DatesDiffer(d: Date, e: Date)
    requires d.Valid() && e.Valid() && DayNumber(d) == DayNumber(e)
    ensures d == e
  {
    DateWithin(d);
    DateWithin(e);
    if d.year < e.year {
      YearsIncrease(d.year, e.year);
    } else if e.year < d.year {
      YearsIncrease(e.year, d.year);
    } else if d.month < e.month {
      MonthsIncrease(d.year, d.month, e.month);
    } else if e.month < d.month {
      MonthsIncrease(d.year, e.month, d.month);
    }
  }

  /** Day numbers and valid dates correspond one to one; `DateOf`'s contract is the other half. */
  lemma DateRoundTrip(d: Date)
    requires d.Valid()
    ensures DateOf(DayNumber(d)) == d
  {
    DatesDiffer(DateOf(DayNumber(d)), d);
  }

  /** Every day from the first to the last of a month carries that year and month. */
  lemma SameMonth(n: int, k: int)
    requires n - DateOf(n).day + 1 <= k < n - DateOf(n).day + 1 + DaysInMonth(DateOf(n).year, DateOf(n).month)
    ensures DateOf(k) == DateOf(n).(day := DateOf(n).day + k - n)
  {
    var d := DateOf(n).(day := DateOf(n).day + k - n);
    assert DayNumber(d) == k;
    DateRoundTrip(d);
  }

  // Instants.

  function DayOf(t: int): int { t / DAY }
  function HourOf(t: int): int { t % DAY / HOUR }
  function MinuteOf(t: int): int { t % HOUR / MINUTE }

  /**
   The midnight of a year, month and day as `time.Date` reads them: a month past December runs into
   the following year, and a day past the end of the month runs into the following month.
   */
  function Midnight(year: int, month: int, day: int): int {
    DAY * DayNumber(Date(year + (month - 1) / 12, (month - 1) % 12 + 1, day))
  }

  lemma NextMonthStart(y: int, m: int)
    requires 1 <= m <= 12
    ensures DayNumber(Date(y + m / 12, m % 12 + 1, 1)) == DaysBeforeYear(y) + DaysBeforeMonth(y, m) + DaysInMonth(y, m)
  {
    MonthLength(y, m);
    YearLength(y);
    if m < 12 {
      assert m / 12 == 0 && m % 12 == m;
    } else {
      assert m / 12 == 1 && m % 12 == 0;
    }
  }

  /** Asking for day 1 of the next month gives the day after the last of this one, in December too. */
  lemma NextMonth(n: int)
    ensures var d := DateOf(n);
            Midnight(d.year, d.month + 1, 1) == DAY * (n - d.day + 1 + DaysInMonth(d.year, d.month))
  {
    hide DateOf, YearOf, MonthOf;
    var d := DateOf(n);
    NextMonthStart(d.year, d.month);
    assert DayNumber(d) == n;
    hide DaysInMonth;
    assert DayNumber(Date(d.year + d.month / 12, d.month % 12 + 1, 1)) == n - d.day + 1 + DaysInMonth(d.year, d.month);
  }

  /** Asking for the following day of the month gives the following day, at the end of a month too. */
  lemma NextDay(n: int)
    ensures var d := DateOf(n); Midnight(d.year, d.month, d.day + 1) == DAY * (n + 1)
  {
    hide DateOf, YearOf, MonthOf, DaysInMonth;
    var d := DateOf(n);
    assert (d.month - 1) / 12 == 0 && (d.month - 1) % 12 == d.month - 1;
    assert DayNumber(d.(day := d.day + 1)) == n + 1;
  }
}
