/**
 What the crontab utility of POSIX.1-2017 and the comment of `NextTime` (internal/cron/cron.go:102-104) promise
 about days and about invalid expressions, and exactly when the code of that file keeps it.
 */
module CronRules {
  import opened Calendar
  import opened Cron
  import opened CronField
  import opened GoStrings

  // Days.

  predicate DateIn(s: Schedule, n: int) { DateOf(n).month in s.month && DateOf(n).day in s.dom }

  predicate WeekdayIn(s: Schedule, n: int) { Weekday(n) in s.dow }

  /**
   The days of the INPUT FILES section: with an asterisk for the day of week, month and day of month decide; with
   asterisks for both of these, the day of week does; and otherwise either is enough.
   */
  predicate PosixDay(f: seq<string>, s: Schedule, n: int)
    requires |f| == 5
  {
    if f[4] == "*" then DateIn(s, n)
    else if f[2] == "*" && f[3] == "*" then WeekdayIn(s, n)
    else DateIn(s, n) || WeekdayIn(s, n)
  }

  predicate Starred(field: string) { field != "" && field[0] == '*' }

  /**
   The rule of most cron daemons: the month is required, and of two restricted day fields either is enough. A field
   that starts with an asterisk counts as unrestricted.
   */
  predicate EitherDay(f: seq<string>, s: Schedule, n: int)
    requires |f| == 5
  {
    var dom, dow := DateOf(n).day in s.dom, WeekdayIn(s, n);
    DateOf(n).month in s.month && if Starred(f[2]) || Starred(f[4]) then dom && dow else dom || dow
  }

  predicate AtTime(s: Schedule, t: int) { HourOf(t) in s.hour && MinuteOf(t) in s.minute }

  predicate Full(values: set<int>, min: int, max: int) { forall x :: min <= x <= max ==> x in values }

  /** Every day that any year has in these months is among the days of the month. */
  predicate CoversItsMonths(s: Schedule) {
    forall m, k :: m in s.month && 1 <= m <= 12 && 1 <= k <= DaysInMonth(2000, m) ==> k in s.dom
  }

  lemma InstantAt(n: int, h: int, m: int) returns (t: int)
    requires 0 <= h <= 23 && 0 <= m <= 59
    ensures DayOf(t) == n && HourOf(t) == h && MinuteOf(t) == m && WholeMinute(t)
  {
    t := DAY * n + HOUR * h + MINUTE * m;
    RemainderUnique(t, DAY, n, HOUR * h + MINUTE * m);
    RemainderUnique(HOUR * h + MINUTE * m, HOUR, h, MINUTE * m);
    RemainderUnique(t, HOUR, 24 * n + h, MINUTE * m);
    RemainderUnique(MINUTE * m, MINUTE, m, 0);
    RemainderUnique(t, MINUTE, 1440 * n + 60 * h + m, 0);
  }

  lemma A365DayYear(m: int, k: int)
    requires 1 <= m <= 12
    ensures DayNumber(Date(2002, m, k)) == DayNumber(Date(2001, m, k)) + 365
  {
    assert DaysBeforeYear(2002) == DaysBeforeYear(2001) + 365;
    assert !Leap(2001) && !Leap(2002);
    assert DaysBeforeMonth(2001, m) == DaysBeforeMonth(2002, m);
  }

  lemma WeekdayAfter(n: int, days: nat)
    ensures Weekday(n + days) == (Weekday(n) + days) % 7
  {
    var q, r := (n + 1) / 7, (n + 1) % 7;
    var q', r' := (r + days) / 7, (r + days) % 7;
    assert n + days + 1 == (q + q') * 7 + r';
    RemainderUnique(n + days + 1, 7, q + q', r');
  }

  /** A date of 2001 up to the 28th returns 365 days later, one weekday on. */
  lemma NextYear(m: int, k: int)
    requires 1 <= m <= 12 && 1 <= k <= 28
    ensures var n := DayNumber(Date(2001, m, k));
            && DateOf(n) == Date(2001, m, k) && DateOf(n + 365) == Date(2002, m, k)
            && Weekday(n + 365) == (Weekday(n) + 1) % 7
  {
    hide DateOf, DayNumber;
    A365DayYear(m, k);
    WeekdayAfter(DayNumber(Date(2001, m, k)), 365);
    DateRoundTrip(Date(2001, m, k));
    DateRoundTrip(Date(2002, m, k));
  }

  /** On the dates of one month the days of the week agree with the days of the month. */
  ghost predicate AgreeIn(dow: set<int>, dom: set<int>, m: int) {
    forall n :: DateOf(n).month == m ==> (Weekday(n) in dow <==> DateOf(n).day in dom)
  }

  lemma DayOfMonth(m: int, w: int) returns (k: int)
    requires 1 <= m <= 12 && 0 <= w <= 6
    ensures 1 <= k <= 7 && Weekday(DayNumber(Date(2001, m, k))) == w
  {
    var first := DayNumber(Date(2001, m, 1));
    var wait := if w >= Weekday(first) then w - Weekday(first) else w + 7 - Weekday(first);
    k := 1 + wait;
    assert DayNumber(Date(2001, m, k)) == first + wait;
    WeekdayAfter(first, wait);
  }

  lemma NextWeekday(dow: set<int>, dom: set<int>, m: int, w: int)
    requires 1 <= m <= 12 && 0 <= w <= 6 && AgreeIn(dow, dom, m)
    ensures w in dow <==> (w + 1) % 7 in dow
  {
    hide DateOf, DayNumber, Weekday;
    var k := DayOfMonth(m, w);
    NextYear(m, k);
    var n := DayNumber(Date(2001, m, k));
    assert DateOf(n).month == m && DateOf(n + 365).month == m;
  }

  /** Then the days of the week are all seven, if there are any. */
  lemma WholeWeek(dow: set<int>, dom: set<int>, m: int, w: int)
    requires 1 <= m <= 12 && AgreeIn(dow, dom, m) && 0 <= w <= 6 && w in dow
    ensures Full(dow, 0, 6)
  {
    hide AgreeIn;
    NextWeekday(dow, dom, m, 0);
    NextWeekday(dow, dom, m, 1);
    NextWeekday(dow, dom, m, 2);
    NextWeekday(dow, dom, m, 3);
    NextWeekday(dow, dom, m, 4);
    NextWeekday(dow, dom, m, 5);
  }

  // Accepted fields.

  /** An accepted field holds a value within its limits. */
  lemma HoldsAValue(field: string, min: int, max: int) returns (x: int)
    requires Limits(min, max) && ValidField(field, min, max) && FieldEnds(field, min, max)
    ensures min <= x <= max && x in ParsedSet(field, min, max)
  {
    hide Split, TrimSpace, Writes, Within, ValidField, PartEffect, Atoi;
    var t := AcceptedPart(field, min, max, 0);
    var effects := Effects(field, min, max);
    x := effects[0].first;
    assert x in EffectSet(effects[0]);
    CollectedMember(effects, x);
  }

  lemma WalkByOne(min: int, max: int, x: int)
    requires 0 <= min <= max <= 59
    ensures LoopEnds(Loop(min, max, 1))
    ensures x in Walk(min, max, 1) <==> min <= x <= max
  {
    EndsSoon(min, max, 1);
    RemainderUnique(max - min, 1, max - min, 0);
    RemainderUnique(x - min, 1, x - min, 0);
    WalkVisits(min, max, 1, x);
  }

  lemma SinglePart(field: string)
    requires Word(field) && ',' !in field
    ensures Split(field, ',') == [field] && TrimSpace(field) == field
  {
    hide IsSpace;
    assert field[0] in field && field[|field| - 1] in field;
    TrimSpaceIdentity(field);
  }

  /** A field that is one part without white space is read as the loop of that part, or as everything if it is not read. */
  lemma OnePartSet(field: string, min: int, max: int, e: Effect, x: int)
    requires Word(field) && ',' !in field
    requires Limits(min, max) && e == TrimmedEffect(field, min, max) && LoopEnds(e)
    ensures FieldEnds(field, min, max)
    ensures x in ParsedSet(field, min, max) <==> if EffectSet(e) == {} then min <= x <= max else x in EffectSet(e)
  {
    hide Walk, LoopEnds, TrimmedEffect, TrimSpace, Split, Word;
    SinglePart(field);
    var effects := Effects(field, min, max);
    assert effects == [e];
    assert effects[..0] == [];
    assert Collected(effects) == EffectSet(e);
    WalkByOne(min, max, min);
    WalkByOne(min, max, x);
  }

  lemma StarWord()
    ensures Word("*") && ',' !in "*" && '/' !in "*"
  {
  }

  lemma StarIsFull(min: int, max: int)
    requires Limits(min, max)
    ensures FieldEnds("*", min, max) && Full(ParsedSet("*", min, max), min, max)
  {
    hide Walk, LoopEnds, Word, IsSpace, Atoi;
    StarWord();
    assert TrimmedEffect("*", min, max) == Loop(min, max, 1);
    WalkByOne(min, max, min);
    OnePartSet("*", min, max, Loop(min, max, 1), min);
    forall x | min <= x <= max ensures x in ParsedSet("*", min, max) {
      WalkByOne(min, max, x);
      OnePartSet("*", min, max, Loop(min, max, 1), x);
    }
  }

  // The two rules for days, against the code.

  /** On every day there is an instant at which hour and minute of an accepted expression match. */
  lemma SomeTime(expr: string, n: int) returns (t: int)
    requires Validate(expr) && Parses(expr)
    ensures DayOf(t) == n && AtTime(ScheduleOf(Fields(expr)), t)
  {
    hide ParsedSet, ValidField, FieldEnds;
    var f := Fields(expr);
    var h := HoldsAValue(f[1], 0, 23);
    var m := HoldsAValue(f[0], 0, 59);
    t := InstantAt(n, h, m);
  }

  ghost predicate PosixAgrees(f: seq<string>, s: Schedule)
    requires |f| == 5
  {
    forall t :: Matches(s, t) <==> PosixDay(f, s, DayOf(t)) && AtTime(s, t)
  }

  ghost predicate EitherAgrees(f: seq<string>, s: Schedule)
    requires |f| == 5
  {
    forall t :: Matches(s, t) <==> EitherDay(f, s, DayOf(t)) && AtTime(s, t)
  }

  /** Where the rules come into play, agreement with one of them makes dates and days of the week agree. */
  lemma DaysAgree(expr: string, n: int)
    requires Validate(expr) && Parses(expr)
    ensures var f := Fields(expr); var s := ScheduleOf(f);
            && (PosixAgrees(f, s) && f[4] != "*" && !(f[2] == "*" && f[3] == "*") ==> (DateIn(s, n) <==> WeekdayIn(s, n)))
            && (EitherAgrees(f, s) && !Starred(f[4]) && !Starred(f[2]) && DateOf(n).month in s.month ==>
                  (DateOf(n).day in s.dom <==> WeekdayIn(s, n)))
  {
    hide DateOf, Weekday, DayOf, HourOf, MinuteOf, ScheduleOf, ValidField, Fields, FieldEnds;
    var t := SomeTime(expr, n);
  }

  lemma EverySet(expr: string)
    requires Validate(expr) && Parses(expr)
    ensures var f := Fields(expr); var s := ScheduleOf(f);
            && (f[2] == "*" ==> Full(s.dom, 1, 31)) && (f[3] == "*" ==> Full(s.month, 1, 12))
            && (f[4] == "*" ==> Full(s.dow, 0, 6))
  {
    hide ParsedSet, ValidField, FieldEnds, Full;
    StarIsFull(1, 31);
    StarIsFull(1, 12);
    StarIsFull(0, 6);
  }

  /** If dates and days of the week agree on every day, both hold on every day. */
  lemma AllDays(s: Schedule, w: int)
    requires 0 <= w <= 6 && w in s.dow && forall n :: DateIn(s, n) <==> WeekdayIn(s, n)
    ensures Full(s.month, 1, 12) && Full(s.dom, 1, 31) && Full(s.dow, 0, 6)
  {
    hide DateOf, Weekday, DayNumber;
    var dated := if 1 in s.month then s.dom else {};
    assert AgreeIn(s.dow, dated, 1) by {
      forall n | DateOf(n).month == 1 ensures Weekday(n) in s.dow <==> DateOf(n).day in dated {
        assert DateIn(s, n) <==> WeekdayIn(s, n);
      }
    }
    WholeWeek(s.dow, dated, 1, w);
    forall m | 1 <= m <= 12 ensures m in s.month {
      DateRoundTrip(Date(2001, m, 1));
      assert WeekdayIn(s, DayNumber(Date(2001, m, 1)));
    }
    forall k | 1 <= k <= 31 ensures k in s.dom {
      DateRoundTrip(Date(2001, 1, k));
      assert WeekdayIn(s, DayNumber(Date(2001, 1, k)));
    }
  }

  /** The same within the months of a schedule. */
  lemma AllDaysOfItsMonths(s: Schedule, w: int, m: int)
    requires 0 <= w <= 6 && w in s.dow && 1 <= m <= 12 && m in s.month
    requires forall n :: DateOf(n).month in s.month ==> (DateOf(n).day in s.dom <==> WeekdayIn(s, n))
    ensures Full(s.dow, 0, 6) && CoversItsMonths(s)
  {
    hide DateOf, Weekday, DayNumber;
    WholeWeek(s.dow, s.dom, m, w);
    forall i, k | i in s.month && 1 <= i <= 12 && 1 <= k <= DaysInMonth(2000, i) ensures k in s.dom {
      var n := DayNumber(Date(2000, i, k));
      DateRoundTrip(Date(2000, i, k));
      assert WeekdayIn(s, n);
    }
  }

  /** A leap year has every day that any year has. */
  lemma LeapYearHasAll(y: int, m: int)
    requires 1 <= m <= 12
    ensures DaysInMonth(y, m) <= DaysInMonth(2000, m)
  {
  }

  /**
   An accepted expression fires on the days of the INPUT FILES section exactly when its day of week is an asterisk,
   or month and day of month are, or all three of its sets are full.
   */
  lemma PosixDays(expr: string)
    requires Validate(expr) && Parses(expr)
    ensures var f := Fields(expr); var s := ScheduleOf(f);
            PosixAgrees(f, s) <==>
              || f[4] == "*" || (f[2] == "*" && f[3] == "*")
              || (Full(s.month, 1, 12) && Full(s.dom, 1, 31) && Full(s.dow, 0, 6))
  {
    hide ScheduleOf, ValidField, Fields, FieldEnds, DateOf, Weekday, DayOf;
    var f := Fields(expr);
    var s := ScheduleOf(f);
    EverySet(expr);
    if PosixAgrees(f, s) {
      if f[4] != "*" && !(f[2] == "*" && f[3] == "*") {
        forall n ensures DateIn(s, n) <==> WeekdayIn(s, n) {
          DaysAgree(expr, n);
        }
        var w := SomeWeekday(expr);
        AllDays(s, w);
      }
    } else {
      var t :| Matches(s, t) != (PosixDay(f, s, DayOf(t)) && AtTime(s, t));
      assert DateOf(DayOf(t)).Valid();
    }
  }

  lemma SomeWeekday(expr: string) returns (w: int)
    requires Validate(expr) && Parses(expr)
    ensures 0 <= w <= 6 && w in ScheduleOf(Fields(expr)).dow
  {
    w := HoldsAValue(Fields(expr)[4], 0, 6);
  }

  lemma SomeMonth(expr: string) returns (m: int)
    requires Validate(expr) && Parses(expr)
    ensures 1 <= m <= 12 && m in ScheduleOf(Fields(expr)).month
  {
    m := HoldsAValue(Fields(expr)[3], 1, 12);
  }

  /**
   It fires on the days of the usual rule exactly when one of its day fields starts with an asterisk, or every day of the week
   and every day of its months is listed.
   */
  lemma EitherDays(expr: string)
    requires Validate(expr) && Parses(expr)
    ensures var f := Fields(expr); var s := ScheduleOf(f);
            EitherAgrees(f, s) <==> Starred(f[2]) || Starred(f[4]) || (Full(s.dow, 0, 6) && CoversItsMonths(s))
  {
    hide ScheduleOf, ValidField, Fields, FieldEnds, DateOf, Weekday, DayOf;
    var f := Fields(expr);
    var s := ScheduleOf(f);
    if EitherAgrees(f, s) {
      if !Starred(f[2]) && !Starred(f[4]) {
        forall n | DateOf(n).month in s.month ensures DateOf(n).day in s.dom <==> WeekdayIn(s, n) {
          DaysAgree(expr, n);
        }
        var w := SomeWeekday(expr);
        var m := SomeMonth(expr);
        AllDaysOfItsMonths(s, w, m);
      }
    } else {
      var t :| Matches(s, t) != (EitherDay(f, s, DayOf(t)) && AtTime(s, t));
      assert DateOf(DayOf(t)).Valid();
      LeapYearHasAll(DateOf(DayOf(t)).year, DateOf(DayOf(t)).month);
    }
  }

  // An expression on which both rules fail.

  lemma FieldsFirst(w: string, rest: string)
    requires Word(w)
    ensures Fields(w + " " + rest) == [w] + Fields(rest) && Fields(w) == [w]
  {
    WordEnds(w, " " + rest);
    WordEnds(w, "");
    var s := w + (" " + rest);
    assert s == w + " " + rest;
    assert TrimLeft(s) == s && s[..|w|] == w && s[|w|..] == " " + rest;
    assert TrimLeft(" " + rest) == TrimLeft(rest) by {
      assert (" " + rest)[1..] == rest;
    }
    assert TrimLeft(w) == w && w + "" == w && w[|w|..] == "";
  }

  lemma FiveFields(a: string, b: string, c: string, d: string, e: string)
    requires Word(a) && Word(b) && Word(c) && Word(d) && Word(e)
    ensures Fields(a + " " + b + " " + c + " " + d + " " + e) == [a, b, c, d, e]
  {
    hide Fields, Word;
    var de := d + " " + e;
    var cde := c + " " + de;
    var bcde := b + " " + cde;
    assert a + " " + b + " " + c + " " + d + " " + e == a + " " + bcde;
    FieldsFirst(a, bcde);
    FieldsFirst(b, cde);
    FieldsFirst(c, de);
    FieldsFirst(d, e);
    FieldsFirst(e, "");
  }

  lemma OneNumber(field: string, v: int, min: int, max: int)
    requires Limits(min, max) && min <= v <= max && Numeral(field, v) && field != "" && AllDigits(field)
    ensures Word(field) && ',' !in field && ValidTrimmed(field, min, max) && TrimmedEffect(field, min, max) == Loop(v, v, 1)
  {
    DigitsAreWords(field);
    hide Word, IsSpace, Atoi;
    assert forall c :: c in field ==> IsDigit(c);
  }

  /** A numeral within the limits is accepted and stands for itself. */
  lemma OneValue(field: string, v: int, min: int, max: int, x: int)
    requires Limits(min, max) && min <= v <= max && Numeral(field, v) && field != "" && AllDigits(field)
    ensures ValidField(field, min, max) && FieldEnds(field, min, max)
    ensures x in ParsedSet(field, min, max) <==> x == v
  {
    hide Word, IsSpace, AllDigits, Atoi, TrimSpace, Split, LoopEnds, ValidTrimmed, TrimmedEffect, ParsedSet, FieldEnds;
    OneNumber(field, v, min, max);
    SinglePart(field);
    EndsSoon(v, v, 1);
    WalkOn(v, v, 1);
    OnePartSet(field, min, max, Loop(v, v, 1), x);
  }

  lemma DigitsAreWords(field: string)
    requires field != "" && AllDigits(field)
    ensures Word(field)
  {
  }

  lemma StarAccepted(min: int, max: int)
    ensures ValidField("*", min, max)
  {
    hide Word, IsSpace, Atoi, TrimSpace, Split;
    StarWord();
    SinglePart("*");
  }

  lemma Digits01()
    ensures AllDigits("0") && Numeral("0", 0) && AllDigits("1") && Numeral("1", 1)
  {
    OneMoreDigit("", '0');
    OneMoreDigit("", '1');
    assert "" + ['0'] == "0" && "" + ['1'] == "1";
    UnsignedNumeral("0");
    UnsignedNumeral("1");
  }

  const FIRST_OR_MONDAY: string := "0" + " " + "0" + " " + "1" + " " + "*" + " " + "1"

  const MALFORMED: string := "?" + " " + "?" + " " + "?" + " " + "?" + " " + "?"

  lemma FieldsOfExamples()
    ensures Fields(FIRST_OR_MONDAY) == ["0", "0", "1", "*", "1"] && Fields(MALFORMED) == ["?", "?", "?", "?", "?"]
  {
    assert Word("0") && Word("1") && Word("*") && Word("?");
    hide Fields, Word, IsSpace;
    FiveFields("0", "0", "1", "*", "1");
    FiveFields("?", "?", "?", "?", "?");
  }

  /**
   Midnight on the first of the month and on Mondays, by both rules: Monday 8 January of year 1 is among the days,
   and the code passes it over.
   */
  lemma FirstOrMonday(expr: string)
    requires expr == FIRST_OR_MONDAY
    ensures Validate(expr) && Parses(expr)
    ensures var f := Fields(expr); var s := ScheduleOf(f); var t := 7 * DAY;
            && PosixDay(f, s, DayOf(t)) && EitherDay(f, s, DayOf(t)) && AtTime(s, t) && !Matches(s, t)
  {
    hide Fields, ParsedSet, ValidField, FieldEnds, DateOf, Word, AllDigits, Numeral;
    FieldsOfExamples();
    Digits01();
    OneValue("0", 0, 0, 59, 0);
    OneValue("0", 0, 0, 23, 0);
    OneValue("1", 1, 1, 31, 8);
    OneValue("1", 1, 0, 6, 1);
    StarAccepted(1, 12);
    StarIsFull(1, 12);
    EighthOfJanuary(Fields(expr), ScheduleOf(Fields(expr)));
  }

  lemma EighthOfJanuary(f: seq<string>, s: Schedule)
    requires |f| == 5 && !Starred(f[2]) && !Starred(f[4])
    requires 0 in s.minute && 0 in s.hour && 8 !in s.dom && 1 in s.month && 1 in s.dow
    ensures var t := 7 * DAY;
            && PosixDay(f, s, DayOf(t)) && EitherDay(f, s, DayOf(t)) && AtTime(s, t) && !Matches(s, t)
  {
    hide DateOf;
    DateRoundTrip(Date(1, 1, 8));
    assert DayNumber(Date(1, 1, 8)) == 7 && Weekday(7) == 1;
    RemainderUnique(7 * DAY, DAY, 7, 0);
    RemainderUnique(7 * DAY, HOUR, 7 * 24, 0);
    assert HourOf(7 * DAY) == 0 && MinuteOf(7 * DAY) == 0;
    hide DayOf, HourOf, MinuteOf, Weekday, DayNumber;
  }

  // The comment of NextTime: one hour later if the expression is invalid or nothing matches.

  /** Some date, day of the week, hour and minute are in the sets. */
  ghost predicate CanFire(s: Schedule) {
    && (exists m :: 0 <= m <= 59 && m in s.minute)
    && (exists h :: 0 <= h <= 23 && h in s.hour)
    && (exists w :: 0 <= w <= 6 && w in s.dow)
    && (exists m, k :: 1 <= m <= 12 && 1 <= k <= DaysInMonth(2000, m) && m in s.month && k in s.dom)
  }

  lemma FourYears(m: int, k: int, j: nat)
    requires 1 <= m <= 12 && j <= 6
    ensures DayNumber(Date(2000 + 4 * j, m, k)) == DayNumber(Date(2000, m, k)) + 1461 * j
  {
    assert DaysBeforeYear(2000 + 4 * j) == DaysBeforeYear(2000) + 1461 * j;
    assert Leap(2000 + 4 * j);
  }

  /** Every date of a leap year falls on every day of the week within 24 years. */
  lemma OnWeekday(m: int, k: int, w: int) returns (n: int)
    requires 1 <= m <= 12 && 1 <= k <= DaysInMonth(2000, m) && 0 <= w <= 6
    ensures DateOf(n).month == m && DateOf(n).day == k && Weekday(n) == w
  {
    hide DateOf, DayNumber, DaysInMonth;
    var first := DayNumber(Date(2000, m, k));
    var j := LeapYearsOn(Weekday(first), w);
    n := first + 1461 * j;
    FourYears(m, k, j);
    WeekdayAfter(first, 1461 * j);
    LeapYears(m, j);
    DateRoundTrip(Date(2000 + 4 * j, m, k));
  }

  /** Four years move the day of the week on by five. */
  lemma LeapYearsOn(a: int, w: int) returns (j: nat)
    requires 0 <= a <= 6 && 0 <= w <= 6
    ensures j <= 6 && (a + 1461 * j) % 7 == w
  {
    var d := if w >= a then w - a else w + 7 - a;
    j := [0, 3, 6, 2, 5, 1, 4][d];
    var weeks := [0, 2, 4, 1, 3, 0, 2][d];
    assert 5 * j == 7 * weeks + d;
    RemainderUnique(a + 1461 * j, 7, 208 * j + weeks + (if w >= a then 0 else 1), w);
  }

  lemma LeapYears(m: int, j: nat)
    requires 1 <= m <= 12 && j <= 6
    ensures DaysInMonth(2000 + 4 * j, m) == DaysInMonth(2000, m)
  {
    assert Leap(2000 + 4 * j) && Leap(2000);
  }

  lemma MatchesSometime(s: Schedule) returns (t: int)
    requires CanFire(s)
    ensures WholeMinute(t) && Matches(s, t)
  {
    var mi :| 0 <= mi <= 59 && mi in s.minute;
    var h :| 0 <= h <= 23 && h in s.hour;
    var w :| 0 <= w <= 6 && w in s.dow;
    var m, k :| 1 <= m <= 12 && 1 <= k <= DaysInMonth(2000, m) && m in s.month && k in s.dom;
    hide CanFire, DateOf, Weekday, HourOf, MinuteOf, DayOf;
    var n := OnWeekday(m, k, w);
    t := InstantAt(n, h, mi);
  }

  lemma MatchingCanFire(s: Schedule, t: int)
    requires Matches(s, t)
    ensures CanFire(s)
  {
    hide DateOf;
    var d := DateOf(DayOf(t));
    LeapYearHasAll(d.year, d.month);
    assert 0 <= HourOf(t) <= 23 && 0 <= MinuteOf(t) <= 59;
    assert d.month in s.month && d.day in s.dom && Weekday(DayOf(t)) in s.dow;
  }

  /** The result is always one hour later exactly when there are not five fields or nothing can ever match. */
  lemma HourLater(expr: string)
    requires Parses(expr)
    ensures (forall after :: NextFiring(expr, after) == after + HOUR)
            <==> |Fields(expr)| != 5 || !CanFire(ScheduleOf(Fields(expr)))
  {
    hide NextFiring, Matches, CanFire, ScheduleOf, FieldsEnd, Fields;
    if |Fields(expr)| == 5 && CanFire(ScheduleOf(Fields(expr))) {
      var t := MatchesSometime(ScheduleOf(Fields(expr)));
      var after := t - MINUTE;
      FiresNext(expr, after);
      assert NextFiring(expr, after) != after + HOUR;
    } else {
      forall after ensures NextFiring(expr, after) == after + HOUR {
        NextFiringMeaning(expr, after);
        if |Fields(expr)| == 5 {
          forall t ensures !Matches(ScheduleOf(Fields(expr)), t) {
            if Matches(ScheduleOf(Fields(expr)), t) {
              MatchingCanFire(ScheduleOf(Fields(expr)), t);
            }
          }
        }
      }
    }
  }

  /** When the next whole minute matches, it is the result. */
  lemma FiresNext(expr: string, after: int)
    requires Parses(expr) && |Fields(expr)| == 5 && Matches(ScheduleOf(Fields(expr)), StartAfter(after))
    ensures NextFiring(expr, after) == StartAfter(after)
  {
    hide Matches, ScheduleOf, FieldsEnd, Fields;
    StartIsNext(after);
  }

  lemma Unreadable(min: int, max: int)
    requires Limits(min, max)
    ensures !ValidField("?", min, max) && FieldEnds("?", min, max)
    ensures forall x :: min <= x <= max ==> x in ParsedSet("?", min, max)
  {
    hide Word, IsSpace, Atoi, TrimSpace, Split, Walk, LoopEnds, TrimmedEffect, ValidTrimmed, ParsedSet, FieldEnds;
    QuestionMark(min, max);
    SinglePart("?");
    assert "?" in Split("?", ',');
    OnePartSet("?", min, max, Ignored, min);
    forall x | min <= x <= max ensures x in ParsedSet("?", min, max) {
      OnePartSet("?", min, max, Ignored, x);
    }
  }

  lemma QuestionMark(min: int, max: int)
    ensures Word("?") && ',' !in "?" && !ValidTrimmed("?", min, max)
    ensures TrimmedEffect("?", min, max) == Ignored && LoopEnds(Ignored) && EffectSet(Ignored) == {}
  {
    assert !Atoi("?").ok by {
      assert !IsDigit('?');
    }
    hide Atoi;
  }

  /** Five fields that cannot be read are not an hour: each is taken for `*`, and the result is the next minute. */
  lemma MalformedFiresEveryMinute(expr: string, after: int)
    requires expr == MALFORMED
    ensures !Validate(expr) && Parses(expr)
    ensures NextFiring(expr, after) == StartAfter(after) != after + HOUR
  {
    hide Fields, ParsedSet, ValidField, FieldEnds, NextFiring, DateOf, Word;
    FieldsOfExamples();
    Unreadable(0, 59);
    Unreadable(0, 23);
    Unreadable(1, 31);
    Unreadable(1, 12);
    Unreadable(0, 6);
    var t := StartAfter(after);
    StartIsNext(after);
    EveryTimeMatches(ScheduleOf(Fields(expr)), t);
    hide Matches, ScheduleOf;
    FiresNext(expr, after);
  }

  lemma EveryTimeMatches(s: Schedule, t: int)
    requires Full(s.minute, 0, 59) && Full(s.hour, 0, 23) && Full(s.dom, 1, 31) && Full(s.month, 1, 12) && Full(s.dow, 0, 6)
    ensures Matches(s, t)
  {
    hide DateOf;
    assert DateOf(DayOf(t)).Valid();
    assert 0 <= HourOf(t) <= 23 && 0 <= MinuteOf(t) <= 59;
  }
}
