/**
 When the search of `NextTime` runs into its limit of 366 days (internal/cron/cron.go:119, 146), so that the
 result is one hour later, an instant that the expression does not name.
 */
module CronLimit {
  import opened Calendar
  import opened Cron
  import opened CronField
  import opened CronRules
  import opened GoStrings

  ghost predicate MatchAhead(s: Schedule, after: int) {
    exists t :: after < t < Limit(after) && WholeMinute(t) && Matches(s, t)
  }

  lemma MinuteParts(t: int)
    ensures DayOf(t) == t / MINUTE / 1440 && HourOf(t) == t / MINUTE % 1440 / 60 && MinuteOf(t) == t / MINUTE % 60
  {
    var m, r := t / MINUTE, t % MINUTE;
    var days, inDay := m / 1440, m % 1440;
    var hours, inHour := inDay / 60, inDay % 60;
    RemainderUnique(t, DAY, days, inDay * MINUTE + r);
    RemainderUnique(inDay * MINUTE + r, HOUR, hours, inHour * MINUTE + r);
    RemainderUnique(t, HOUR, 24 * days + hours, inHour * MINUTE + r);
    RemainderUnique(inHour * MINUTE + r, MINUTE, inHour, r);
    RemainderUnique(m, 60, 24 * days + hours, inHour);
  }

  /** An instant matches exactly when the whole minute it lies in does. */
  lemma MinuteMatches(s: Schedule, t: int)
    ensures var u := t / MINUTE * MINUTE; WholeMinute(u) && u <= t < u + MINUTE && (Matches(s, u) <==> Matches(s, t))
  {
    var u := t / MINUTE * MINUTE;
    RemainderUnique(u, MINUTE, t / MINUTE, 0);
    MinuteParts(t);
    MinuteParts(u);
    hide DateOf, Weekday, DayOf, HourOf, MinuteOf;
  }

  /** The result matches exactly when there is a match within the limit. */
  lemma ResultMatches(expr: string, after: int)
    requires Parses(expr) && |Fields(expr)| == 5
    ensures var s := ScheduleOf(Fields(expr)); Matches(s, NextFiring(expr, after)) <==> MatchAhead(s, after)
  {
    hide Matches, NextFiring, ScheduleOf, FieldsEnd, Fields;
    NextFiringMeaning(expr, after);
    StartIsNext(after);
    MinuteMatches(ScheduleOf(Fields(expr)), after + HOUR);
  }

  /** Some day of some month in the sets exists in every year. */
  ghost predicate InACommonYear(s: Schedule) {
    exists m, k :: 1 <= m <= 12 && 1 <= k <= DaysInMonth(2001, m) && m in s.month && k in s.dom
  }

  lemma TwoYears(y: int)
    ensures !Leap(y) || !Leap(y + 1)
  {
    if y % 4 == 0 { RemainderUnique(y + 1, 4, y / 4, 1); }
  }

  /** From a date to the same date of the next year it is at most 366 days. */
  lemma OneYearOn(y: int, m: int, k: int)
    requires 1 <= m <= 12
    ensures DayNumber(Date(y + 1, m, k)) <= DayNumber(Date(y, m, k)) + 366
  {
    YearLength(y);
    TwoYears(y);
    hide DaysBeforeYear, Leap;
  }

  lemma CommonDays(y: int, m: int)
    requires 1 <= m <= 12
    ensures DaysInMonth(2001, m) <= DaysInMonth(y, m)
    ensures !Leap(y) ==> DaysInMonth(2001, m) == DaysInMonth(y, m)
  {
    assert !Leap(2001);
  }

  /** A date that every year has comes within 366 days of any whole minute, at any hour and minute. */
  lemma ComesInAYear(start: int, m: int, k: int, h: int, mi: int) returns (t: int)
    requires 1 <= m <= 12 && 1 <= k <= DaysInMonth(2001, m) && 0 <= h <= 23 && 0 <= mi <= 59
    ensures start <= t < start + 366 * DAY && WholeMinute(t) && HourOf(t) == h && MinuteOf(t) == mi
    ensures DateOf(DayOf(t)).month == m && DateOf(DayOf(t)).day == k
  {
    hide DateOf, DayNumber, DaysInMonth, DaysBeforeYear, DaysBeforeMonth, HourOf, MinuteOf, Leap, WholeMinute;
    var y := DateOf(DayOf(start)).year;
    DateWithin(DateOf(DayOf(start)));
    DayBounds(start, DayOf(start));
    CommonDays(y, m);
    CommonDays(y + 1, m);
    var first, next := Date(y, m, k), Date(y + 1, m, k);
    DateWithin(first);
    DateWithin(next);
    YearLength(y);
    OneYearOn(y, m, k);
    DateRoundTrip(first);
    DateRoundTrip(next);
    t := InstantAt(DayNumber(first), h, mi);
    DayBounds(t, DayNumber(first));
    if t < start {
      var u := InstantAt(DayNumber(next), h, mi);
      SameTime(t, u);
      DayBounds(u, DayNumber(next));
      t := u;
    }
  }

  lemma SameTime(t: int, u: int)
    requires WholeMinute(t) && WholeMinute(u) && HourOf(t) == HourOf(u) && MinuteOf(t) == MinuteOf(u)
    ensures u - t == DAY * (DayOf(u) - DayOf(t))
  {
    MinuteParts(t);
    MinuteParts(u);
    var m, n := t / MINUTE, u / MINUTE;
    assert m % 1440 % 60 == m % 60 by { RemainderUnique(m, 60, m / 1440 * 24 + m % 1440 / 60, m % 1440 % 60); }
    assert n % 1440 % 60 == n % 60 by { RemainderUnique(n, 60, n / 1440 * 24 + n % 1440 / 60, n % 1440 % 60); }
    assert m % 1440 == n % 1440;
  }

  /** With every day of the week, such a date is enough for a match ahead of any instant. */
  lemma CommonDateMatches(expr: string, after: int)
    requires Validate(expr) && Parses(expr)
    requires var s := ScheduleOf(Fields(expr)); Full(s.dow, 0, 6) && InACommonYear(s)
    ensures MatchAhead(ScheduleOf(Fields(expr)), after)
  {
    hide ParsedSet, ValidField, FieldEnds, DateOf, Weekday, DayOf, HourOf, MinuteOf, WholeMinute;
    var f := Fields(expr);
    var h := HoldsAValue(f[1], 0, 23);
    var mi := HoldsAValue(f[0], 0, 59);
    var s := ScheduleOf(f);
    var m, k :| 1 <= m <= 12 && 1 <= k <= DaysInMonth(2001, m) && m in s.month && k in s.dom;
    var t := ComesInAYear(StartAfter(after), m, k, h, mi);
    StartIsNext(after);
    assert Matches(s, t);
  }

  /** The year 2001 and the day behind it lie in common years. */
  lemma In2001(n: int)
    requires DaysBeforeYear(2001) <= n <= DaysBeforeYear(2002)
    ensures !Leap(DateOf(n).year)
  {
    assert !Leap(2001) && !Leap(2002);
    hide DateOf, DayNumber;
    var y := DateOf(n).year;
    DateWithin(DateOf(n));
    YearLength(2001);
    YearLength(2002);
    if y < 2001 {
      YearsIncrease(y, 2001);
    } else if y > 2002 {
      YearsIncrease(2002, y);
    }
  }

  /**
   With every day of the week in its set, an accepted expression is answered with an instant that it names,
   whatever the time, exactly when a month and a day in its sets exist in a common year.
   */
  lemma NeverTooFar(expr: string)
    requires Validate(expr) && Parses(expr) && Full(ScheduleOf(Fields(expr)).dow, 0, 6)
    ensures var s := ScheduleOf(Fields(expr));
            (forall after :: Matches(s, NextFiring(expr, after))) <==> InACommonYear(s)
  {
    hide NextFiring, Matches, InACommonYear, ScheduleOf, FieldsEnd, Fields, ValidField, MatchAhead;
    var s := ScheduleOf(Fields(expr));
    if InACommonYear(s) {
      forall after ensures Matches(s, NextFiring(expr, after)) {
        CommonDateMatches(expr, after);
        ResultMatches(expr, after);
      }
    } else {
      var after := DAY * DaysBeforeYear(2001) - MINUTE;
      if Matches(s, NextFiring(expr, after)) {
        ResultMatches(expr, after);
        NotBefore2001(s, after);
      }
    }
  }

  lemma NotBefore2001(s: Schedule, after: int)
    requires after == DAY * DaysBeforeYear(2001) - MINUTE && MatchAhead(s, after)
    ensures InACommonYear(s)
  {
    hide DateOf, WholeMinute, Weekday, HourOf, MinuteOf;
    var t :| after < t < Limit(after) && WholeMinute(t) && Matches(s, t);
    var d := DateOf(DayOf(t));
    WindowOf2001(after, t);
    In2001(DayOf(t));
    CommonDays(d.year, d.month);
  }

  lemma WindowOf2001(after: int, t: int)
    requires after == DAY * DaysBeforeYear(2001) - MINUTE && after < t < Limit(after) && WholeMinute(t)
    ensures DaysBeforeYear(2001) <= DayOf(t) <= DaysBeforeYear(2002)
  {
    YearLength(2001);
    assert !Leap(2001);
    hide DaysBeforeYear, Leap;
    RemainderUnique(after, MINUTE, 1440 * DaysBeforeYear(2001) - 1, 0);
    StartIsNext(after);
  }

  // Friday the 13th.

  const FRIDAY_13: string := "0" + " " + "0" + " " + "13" + " " + "*" + " " + "5"

  lemma Digits135()
    ensures AllDigits("0") && Numeral("0", 0) && AllDigits("13") && Numeral("13", 13) && AllDigits("5") && Numeral("5", 5)
  {
    assert AllDigits("") && Decimal("") == 0;
    hide AllDigits, Decimal, Numeral;
    OneMoreDigit("", '0');
    OneMoreDigit("", '1');
    OneMoreDigit("", '5');
    assert "" + ['0'] == "0" && "" + ['1'] == "1" && "" + ['5'] == "5";
    OneMoreDigit("1", '3');
    assert "1" + ['3'] == "13";
    UnsignedNumeral("0");
    UnsignedNumeral("13");
    UnsignedNumeral("5");
  }

  lemma FieldsOfFriday()
    ensures Fields(FRIDAY_13) == ["0", "0", "13", "*", "5"]
  {
    assert Word("0") && Word("13") && Word("*") && Word("5");
    hide Fields, Word, IsSpace;
    FiveFields("0", "0", "13", "*", "5");
  }

  lemma NoFriday13(y: int, m: int)
    requires (y == 1999 && 9 <= m <= 12) || (y == 2000 && 1 <= m <= 8)
    ensures Weekday(DayNumber(Date(y, m, 13))) != 5
  {
    assert !Leap(1999) && Leap(2000);
    assert DaysBeforeYear(1999) == 729754 && DaysBeforeYear(2000) == 730119;
  }

  /** After 13 August 1999 no 13th is a Friday for more than a year. */
  lemma FridaysApart(n: int)
    requires var first := DayNumber(Date(1999, 8, 13)); first <= n <= first + 366
    requires DateOf(n).day == 13 && Weekday(n) == 5
    ensures n == DayNumber(Date(1999, 8, 13))
  {
    hide DateOf, Weekday;
    var d := DateOf(n);
    DateWithin(d);
    YearLength(1999);
    YearLength(2000);
    assert !Leap(1999) && Leap(2000);
    if d.year < 1999 {
      YearsIncrease(d.year, 1999);
    } else if d.year > 2000 {
      YearsIncrease(2000, d.year);
    } else if n != DayNumber(Date(1999, 8, 13)) {
      NoFriday13(d.year, d.month);
    }
  }

  /** Midnight on a Friday the 13th. */
  lemma FridaySets(expr: string, t: int)
    requires expr == FRIDAY_13
    ensures Validate(expr) && Parses(expr)
    ensures var s := ScheduleOf(Fields(expr));
            Matches(s, t) ==> HourOf(t) == 0 && MinuteOf(t) == 0 && DateOf(DayOf(t)).day == 13 && Weekday(DayOf(t)) == 5
  {
    hide Fields, ParsedSet, ValidField, FieldEnds, DateOf, DayOf, HourOf, MinuteOf, Weekday, Word, AllDigits, Numeral;
    FieldsOfFriday();
    Digits135();
    OneValue("0", 0, 0, 59, MinuteOf(t));
    OneValue("0", 0, 0, 23, HourOf(t));
    OneValue("13", 13, 1, 31, DateOf(DayOf(t)).day);
    OneValue("5", 5, 0, 6, Weekday(DayOf(t)));
    StarAccepted(1, 12);
    StarIsFull(1, 12);
  }

  /**
   With days of the week left out the search can run into its limit although matches come again and again: asked for
   midnights of a Friday the 13th at that of 13 August 1999, the code answers with one o'clock of that day.
   */
  lemma FridayThe13th(expr: string, after: int)
    requires expr == FRIDAY_13 && after == DAY * DayNumber(Date(1999, 8, 13))
    ensures Validate(expr) && Parses(expr) && |Fields(expr)| == 5 && NextFiring(expr, after) == after + HOUR
    ensures !Matches(ScheduleOf(Fields(expr)), after + HOUR)
  {
    hide NextFiring, Matches, ScheduleOf, FieldsEnd, Fields, Validate, DateOf, DayNumber, WholeMinute, HourOf, MinuteOf, Weekday;
    FridaySets(expr, after);
    FiveOf(expr);
    var s := ScheduleOf(Fields(expr));
    forall t | after < t < Limit(after) && WholeMinute(t) ensures !Matches(s, t) {
      if Matches(s, t) {
        FridaySets(expr, t);
        OnThatDay(after, t);
        FridaysApart(DayOf(t));
      }
    }
    ResultMatches(expr, after);
    NextFiringMeaning(expr, after);
  }

  lemma FiveOf(expr: string)
    requires Validate(expr)
    ensures |Fields(expr)| == 5
  {
  }

  lemma OnThatDay(after: int, t: int)
    requires after == DAY * DayNumber(Date(1999, 8, 13)) && after < t < Limit(after)
    requires WholeMinute(t) && HourOf(t) == 0 && MinuteOf(t) == 0
    ensures DayNumber(Date(1999, 8, 13)) < DayOf(t) <= DayNumber(Date(1999, 8, 13)) + 366
  {
    hide DayNumber;
    var n := DayNumber(Date(1999, 8, 13));
    RemainderUnique(after, MINUTE, 1440 * n, 0);
    MinuteParts(after);
    RemainderUnique(1440 * n, 1440, n, 0);
    RemainderUnique(1440 * n, 60, 24 * n, 0);
    SameTime(after, t);
    hide HourOf, MinuteOf;
    DayBounds(t, DayOf(t));
  }
}
