/**
 `Validate` and `NextTime` of internal/cron/cron.go: the search for the next firing, which jumps over
 months, days and hours that cannot match, against a scan that looks at every minute.
 */
module Cron {
  import opened Calendar
  import opened CronField
  import opened GoStrings

  datatype Schedule = Schedule(minute: set<int>, hour: set<int>, dom: set<int>, month: set<int>, dow: set<int>)

  /** All five fields must match; day of month and day of week are both required. */
  predicate Matches(s: Schedule, t: int) {
    var d := DateOf(DayOf(t));
    && d.month in s.month
    && d.day in s.dom
    && Weekday(DayOf(t)) in s.dow
    && HourOf(t) in s.hour
    && MinuteOf(t) in s.minute
  }

  datatype Firing = Never | At(t: int)

  /** The reference search: look at `t`, then one minute later, up to the limit. */
  function Scan(s: Schedule, t: int, limit: int): Firing
    decreases limit - t
  {
    if t >= limit then Never
    else if Matches(s, t) then At(t)
    else Scan(s, t + MINUTE, limit)
  }

  predicate WholeMinute(t: int) { t % MINUTE == 0 }

  predicate MinuteIn(t: int, lo: int, hi: int) { lo <= t < hi && WholeMinute(t) }

  lemma MinutesApart(t: int, u: int)
    requires WholeMinute(t) && WholeMinute(u) && t < u
    ensures t + MINUTE <= u && WholeMinute(t + MINUTE)
  {
    assert t == t / MINUTE * MINUTE && u == u / MINUTE * MINUTE;
  }

  /** The scan finds the least matching whole minute, and fails only when there is none. */
  lemma {:induction false} ScanIsLeast(s: Schedule, t: int, limit: int)
    requires WholeMinute(t)
    ensures match Scan(s, t, limit)
            case Never => forall u :: MinuteIn(u, t, limit) ==> !Matches(s, u)
            case At(r) => MinuteIn(r, t, limit) && Matches(s, r) && forall u :: MinuteIn(u, t, r) ==> !Matches(s, u)
    decreases limit - t
  {
    hide Matches;
    if t < limit && !Matches(s, t) {
      assert WholeMinute(t + MINUTE);
      ScanIsLeast(s, t + MINUTE, limit);
      forall u | MinuteIn(u, t, limit) ensures u == t || MinuteIn(u, t + MINUTE, limit) {
        if u != t { MinutesApart(t, u); }
      }
    }
  }

  /** Minutes that do not match may be jumped over. */
  lemma {:induction false} ScanSkips(s: Schedule, t: int, u: int, limit: int)
    requires WholeMinute(t) && WholeMinute(u) && t <= u
    requires forall v :: MinuteIn(v, t, u) ==> !Matches(s, v)
    ensures Scan(s, t, limit) == Scan(s, u, limit)
    decreases u - t
  {
    if t < u {
      MinutesApart(t, u);
      assert MinuteIn(t, t, u);
      ScanSkips(s, t + MINUTE, u, limit);
    }
  }

  // The three jumps.

  function MonthJump(t: int): int {
    var d := DateOf(DayOf(t));
    Midnight(d.year, d.month + 1, 1)
  }

  function DayJump(t: int): int {
    var d := DateOf(DayOf(t));
    Midnight(d.year, d.month, d.day + 1)
  }

  function HourJump(t: int): int {
    t / HOUR * HOUR + HOUR
  }

  lemma MidnightIsWholeMinute(n: int)
    ensures WholeMinute(DAY * n)
  {
    assert DAY * n == MINUTE * (1440 * n);
    assert (MINUTE * (1440 * n)) % MINUTE == 0;
  }

  lemma DayBounds(t: int, n: int)
    ensures DAY * n <= t < DAY * (n + 1) <==> DayOf(t) == n
  {
  }

  lemma DaysBetween(t: int, v: int, last: int)
    requires t <= v < DAY * (last + 1)
    ensures DayOf(t) <= DayOf(v) <= last
  {
  }

  lemma MonthJumpSkips(s: Schedule, t: int)
    requires DateOf(DayOf(t)).month !in s.month
    ensures t < MonthJump(t) && WholeMinute(MonthJump(t))
    ensures forall v :: t <= v < MonthJump(t) ==> !Matches(s, v)
  {
    hide DateOf, Midnight, Weekday, HourOf, MinuteOf, DaysInMonth;
    var n := DayOf(t);
    var d := DateOf(n);
    NextMonth(n);
    var last := n - d.day + DaysInMonth(d.year, d.month);
    MidnightIsWholeMinute(last + 1);
    assert MonthJump(t) == DAY * (last + 1);
    DayBounds(t, n);
    forall v | t <= v < MonthJump(t) ensures !Matches(s, v) {
      DaysBetween(t, v, last);
      SameMonth(n, DayOf(v));
    }
  }

  lemma DayJumpSkips(s: Schedule, t: int)
    requires DateOf(DayOf(t)).day !in s.dom || Weekday(DayOf(t)) !in s.dow
    ensures t < DayJump(t) && WholeMinute(DayJump(t))
    ensures forall v :: t <= v < DayJump(t) ==> !Matches(s, v)
  {
    hide DateOf;
    hide Midnight;
    NextDay(DayOf(t));
    MidnightIsWholeMinute(DayOf(t) + 1);
    DayBounds(t, DayOf(t));
    forall v | t <= v < DayJump(t) ensures !Matches(s, v) {
      DayBounds(v, DayOf(t));
    }
  }

  lemma HourOfQuotient(t: int)
    ensures HourOf(t) == t / HOUR % 24
  {
    var q, r := t / HOUR, t % HOUR;
    var days, hours := q / 24, q % 24;
    assert t == days * DAY + (hours * HOUR + r);
    RemainderUnique(t, DAY, days, hours * HOUR + r);
    RemainderUnique(hours * HOUR + r, HOUR, hours, r);
  }

  lemma SameHour(t: int, v: int)
    requires t <= v < HourJump(t)
    ensures v / HOUR == t / HOUR
  {
  }

  lemma HourJumpSkips(s: Schedule, t: int)
    requires HourOf(t) !in s.hour
    ensures t < HourJump(t) && WholeMinute(HourJump(t))
    ensures forall v :: t <= v < HourJump(t) ==> !Matches(s, v)
  {
    hide DateOf, Weekday, DayOf, MinuteOf, HourOf;
    var q := t / HOUR;
    assert HourJump(t) == MINUTE * (60 * (q + 1));
    assert (MINUTE * (60 * (q + 1))) % MINUTE == 0;
    HourOfQuotient(t);
    forall v | t <= v < HourJump(t) ensures !Matches(s, v) {
      SameHour(t, v);
      HourOfQuotient(v);
    }
  }

  /** The next candidate after one that does not match. */
  function NextCandidate(s: Schedule, t: int): int {
    var d := DateOf(DayOf(t));
    if d.month !in s.month then MonthJump(t)
    else if d.day !in s.dom || Weekday(DayOf(t)) !in s.dow then DayJump(t)
    else if HourOf(t) !in s.hour then HourJump(t)
    else t + MINUTE
  }

  lemma CandidateSkips(s: Schedule, t: int, limit: int)
    requires WholeMinute(t) && !Matches(s, t)
    ensures t < NextCandidate(s, t) && WholeMinute(NextCandidate(s, t))
    ensures Scan(s, NextCandidate(s, t), limit) == Scan(s, t, limit)
  {
    hide DateOf;
    hide Midnight;
    hide Matches;
    var u := NextCandidate(s, t);
    var d := DateOf(DayOf(t));
    if d.month !in s.month {
      MonthJumpSkips(s, t);
    } else if d.day !in s.dom || Weekday(DayOf(t)) !in s.dow {
      DayJumpSkips(s, t);
    } else if HourOf(t) !in s.hour {
      HourJumpSkips(s, t);
    } else {
      NextMinute(t, u);
    }
    ScanSkips(s, t, u, limit);
  }

  lemma NextMinute(t: int, u: int)
    requires WholeMinute(t) && u == t + MINUTE
    ensures WholeMinute(u)
    ensures forall v :: MinuteIn(v, t, u) ==> v <= t
  {
    forall v | MinuteIn(v, t, u) ensures v <= t {
      if v > t { MinutesApart(t, v); }
    }
  }

  // Expressions.

  ghost predicate FieldsEnd(f: seq<string>) {
    |f| == 5 ==> FieldEnds(f[0], 0, 59) && FieldEnds(f[1], 0, 23) && FieldEnds(f[2], 1, 31)
                 && FieldEnds(f[3], 1, 12) && FieldEnds(f[4], 0, 6)
  }

  /** Every loop that parsing the expression starts comes to an end. */
  ghost predicate Parses(expr: string) { FieldsEnd(Fields(expr)) }

  predicate Validate(expr: string) {
    var f := Fields(expr);
    |f| == 5 && ValidField(f[0], 0, 59) && ValidField(f[1], 0, 23) && ValidField(f[2], 1, 31)
    && ValidField(f[3], 1, 12) && ValidField(f[4], 0, 6)
  }

  /** Whatever `Validate` accepts, `NextTime` can parse. */
  lemma ValidatedParses(expr: string)
    requires Validate(expr)
    ensures Parses(expr)
  {
    var f := Fields(expr);
    AcceptedFieldEnds(f[0], 0, 59);
    AcceptedFieldEnds(f[1], 0, 23);
    AcceptedFieldEnds(f[2], 1, 31);
    AcceptedFieldEnds(f[3], 1, 12);
    AcceptedFieldEnds(f[4], 0, 6);
  }

  function ScheduleOf(f: seq<string>): Schedule
    requires |f| == 5 && FieldsEnd(f)
  {
    Schedule(ParsedSet(f[0], 0, 59), ParsedSet(f[1], 0, 23), ParsedSet(f[2], 1, 31),
             ParsedSet(f[3], 1, 12), ParsedSet(f[4], 0, 6))
  }

  /** The first whole minute after `after`. */
  function StartAfter(after: int): int { after / MINUTE * MINUTE + MINUTE }

  function Limit(after: int): int { StartAfter(after) + 366 * DAY }

  /** What `NextTime` returns, by the reference scan. */
  function NextFiring(expr: string, after: int): int
    requires Parses(expr)
  {
    var f := Fields(expr);
    if |f| != 5 then after + HOUR else
      match Scan(ScheduleOf(f), StartAfter(after), Limit(after))
      case At(t) => t
      case Never => after + HOUR
  }

  /** The search of `NextTime` with its jumps: `candidate` only ever leaves minutes that cannot match. */
  method Search(s: Schedule, start: int, limit: int) returns (r: Firing)
    requires WholeMinute(start)
    ensures r == Scan(s, start, limit)
  {
    hide DateOf;
    hide Midnight;
    hide Matches;
    hide WholeMinute;
    var candidate := start;
    while candidate < limit
      invariant WholeMinute(candidate)
      invariant Scan(s, candidate, limit) == Scan(s, start, limit)
      decreases limit - candidate
    {
      if Matches(s, candidate) {
        return At(candidate);
      }
      CandidateSkips(s, candidate, limit);
      var d := DateOf(DayOf(candidate));
      if d.month !in s.month {
        candidate := Midnight(d.year, d.month + 1, 1);
      } else if d.day !in s.dom || Weekday(DayOf(candidate)) !in s.dow {
        candidate := Midnight(d.year, d.month, d.day + 1);
      } else if HourOf(candidate) !in s.hour {
        candidate := candidate / HOUR * HOUR + HOUR;
      } else {
        candidate := candidate + MINUTE;
      }
    }
    r := Never;
  }

  method NextTime(expr: string, after: int) returns (r: int)
    requires Parses(expr)
    ensures r == NextFiring(expr, after)
  {
    var f := Fields(expr);
    if |f| != 5 {
      return after + HOUR;
    }
    var minuteSet := ParseField(f[0], 0, 59);
    var hourSet := ParseField(f[1], 0, 23);
    var domSet := ParseField(f[2], 1, 31);
    var monthSet := ParseField(f[3], 1, 12);
    var dowSet := ParseField(f[4], 0, 6);
    StartIsNext(after);
    var found := Search(Schedule(minuteSet, hourSet, domSet, monthSet, dowSet), StartAfter(after), Limit(after));
    match found
    case At(t) => r := t;
    case Never => r := after + HOUR;
  }

  lemma StartIsNext(after: int)
    ensures WholeMinute(StartAfter(after)) && after < StartAfter(after) <= after + MINUTE
    ensures forall t :: WholeMinute(t) && t > after ==> t >= StartAfter(after)
  {
    var q := after / MINUTE;
    assert StartAfter(after) == MINUTE * (q + 1);
    forall t | WholeMinute(t) && t > after ensures t >= StartAfter(after) {
      assert t == MINUTE * (t / MINUTE);
    }
  }

  /**
   When an expression fires next: at the least whole minute strictly after `after` and before the 366-day limit
   at which all five fields match, or one hour after `after` when there is none.
   */
  ghost predicate FiresAt(expr: string, after: int, r: int)
    requires Parses(expr)
  {
    var f := Fields(expr);
    && r > after
    && (|f| != 5 ==> r == after + HOUR)
    && (|f| == 5 ==>
          var s := ScheduleOf(f);
          if exists t :: after < t < Limit(after) && WholeMinute(t) && Matches(s, t) then
            && after < r < Limit(after) && WholeMinute(r) && Matches(s, r)
            && forall t :: after < t < r && WholeMinute(t) ==> !Matches(s, t)
          else r == after + HOUR)
  }

  lemma NextFiringMeaning(expr: string, after: int)
    requires Parses(expr)
    ensures FiresAt(expr, after, NextFiring(expr, after))
  {
    StartIsNext(after);
    var f := Fields(expr);
    if |f| == 5 {
      var s := ScheduleOf(f);
      ScanIsLeast(s, StartAfter(after), Limit(after));
      assert forall t :: after < t && WholeMinute(t) ==> StartAfter(after) <= t;
      assert forall t :: after < t < Limit(after) && WholeMinute(t) ==> MinuteIn(t, StartAfter(after), Limit(after));
    }
  }

  /** No other instant has that meaning. */
  lemma OneFiring(expr: string, after: int, r: int)
    requires Parses(expr) && FiresAt(expr, after, r)
    ensures r == NextFiring(expr, after)
  {
    hide NextFiring, Matches, ScheduleOf, Limit;
    NextFiringMeaning(expr, after);
  }
}
