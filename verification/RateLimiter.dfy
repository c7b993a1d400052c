/**
 The per-IP token bucket of server/middleware/ratelimit.go. Times are seconds and tokens are reals.
 Sweeping away buckets unused for two minutes is compared with a limiter that never forgets one.
 */
module RateLimiter {

  datatype Bucket = Bucket(tokens: real, lastCheck: real)

  datatype Config = Config(rate: real, burst: nat) {
    predicate Valid() { rate >= 0.0 }

    function Capacity(): (r: real)
      ensures r >= 0.0
    {
      burst as real
    }

    /** Whatever its level, a bucket fills up in the two minutes after which it may be swept. */
    predicate RefillsBeforeSweep() { burst == 0 || Capacity() <= Refill(rate, 120.0) }
  }

  datatype Request = Request(ip: string, at: real)

  type Buckets = map<string, Bucket>

  datatype State = State(buckets: Buckets, lastSweep: real)

  function New(now: real): State { State(map[], now) }

  function Sweep(st: State, now: real): State {
    if now - st.lastSweep > 60.0 then
      State(map k | k in st.buckets && now - st.buckets[k].lastCheck <= 120.0 :: st.buckets[k], now)
    else st
  }

  /** What `elapsed` seconds add to a bucket. */
  function Refill(rate: real, elapsed: real): (r: real)
    ensures rate >= 0.0 && elapsed >= 0.0 ==> r >= 0.0
    ensures elapsed == 0.0 ==> r == 0.0
  {
    elapsed * rate
  }

  lemma RefillAdds(rate: real, a: real, b: real)
    ensures Refill(rate, a + b) == Refill(rate, a) + Refill(rate, b)
  {
  }

  lemma RefillGrows(rate: real, a: real, b: real)
    requires rate >= 0.0 && a <= b
    ensures Refill(rate, a) <= Refill(rate, b)
  {
    RefillAdds(rate, a, b - a);
  }

  /** The tokens an address has at `now`; an address without a bucket has a full one. */
  function Level(c: Config, buckets: Buckets, ip: string, now: real): real {
    if ip !in buckets then c.Capacity() else
      var filled := buckets[ip].tokens + Refill(c.rate, now - buckets[ip].lastCheck);
      if filled > c.Capacity() then c.Capacity() else filled
  }

  function Take(c: Config, buckets: Buckets, r: Request): (Buckets, bool) {
    var tokens := Level(c, buckets, r.ip, r.at);
    if tokens < 1.0 then (buckets[r.ip := Bucket(tokens, r.at)], false)
    else (buckets[r.ip := Bucket(tokens - 1.0, r.at)], true)
  }

  function Allow(c: Config, st: State, r: Request): (State, bool) {
    var swept := Sweep(st, r.at);
    var (buckets, ok) := Take(c, swept.buckets, r);
    (swept.(buckets := buckets), ok)
  }

  // Runs.

  function Answers(c: Config, st: State, reqs: seq<Request>): (a: seq<bool>)
    ensures |a| == |reqs|
    decreases |reqs|
  {
    if reqs == [] then [] else
      var (st', ok) := Allow(c, st, reqs[0]);
      [ok] + Answers(c, st', reqs[1..])
  }

  /** The limiter that never forgets. */
  function FullAnswers(c: Config, buckets: Buckets, reqs: seq<Request>): (a: seq<bool>)
    ensures |a| == |reqs|
    decreases |reqs|
  {
    if reqs == [] then [] else
      var (buckets', ok) := Take(c, buckets, reqs[0]);
      [ok] + FullAnswers(c, buckets', reqs[1..])
  }

  function After(c: Config, st: State, reqs: seq<Request>): State
    decreases |reqs|
  {
    if reqs == [] then st else After(c, Allow(c, st, reqs[0]).0, reqs[1..])
  }

  /** Requests at non-decreasing times from `start` on. */
  predicate Ordered(start: real, reqs: seq<Request>)
    decreases |reqs|
  {
    reqs == [] || (start <= reqs[0].at && Ordered(reqs[0].at, reqs[1..]))
  }

  /** How many of the requests of one address were admitted. */
  function Admitted(reqs: seq<Request>, answers: seq<bool>, ip: string): nat
    requires |reqs| == |answers|
  {
    if reqs == [] then 0
    else (if reqs[0].ip == ip && answers[0] then 1 else 0) + Admitted(reqs[1..], answers[1..], ip)
  }

  /** What a window of this duration may admit: burst + rate * duration. */
  function Allowance(c: Config, duration: real): real { c.burst as real + c.rate * duration }

  /** The refill of a bucket is counted by the same product. */
  lemma AllowanceRefills(c: Config, duration: real)
    ensures Allowance(c, duration) == c.Capacity() + Refill(c.rate, duration)
  {
  }

  /** In every window, from request i up to request j, an address gets at most burst + rate * duration. */
  predicate WindowHolds(c: Config, start: real, reqs: seq<Request>, ip: string, i: nat, j: nat)
    requires i < j <= |reqs|
  {
    Admitted(reqs[i..j], Answers(c, New(start), reqs)[i..j], ip) as real <= Allowance(c, reqs[j - 1].at - reqs[i].at)
  }

  // The code.

  class RateLimiter {
    const config: Config
    var buckets: Buckets
    var lastSweep: real

    function Current(): State
      reads this
    {
      State(buckets, lastSweep)
    }

    constructor (rate: real, burst: nat, now: real)
      ensures config == Config(rate, burst) && Current() == New(now)
    {
      config := Config(rate, burst);
      buckets := map[];
      lastSweep := now;
    }

    method SweepStale(now: real)
      modifies this`buckets
      ensures buckets == map k | k in old(buckets) && now - old(buckets)[k].lastCheck <= 120.0 :: old(buckets)[k]
    {
      var all := buckets;
      var keys := all.Keys;
      while keys != {}
        invariant keys <= all.Keys
        invariant buckets == map k | k in all && (k in keys || now - all[k].lastCheck <= 120.0) :: all[k]
        decreases |keys|
      {
        var k :| k in keys;
        if now - all[k].lastCheck > 120.0 {
          buckets := buckets - {k};
        }
        keys := keys - {k};
      }
    }

    method AllowRequest(ip: string, now: real) returns (ok: bool)
      modifies this
      ensures (Current(), ok) == Allow(config, old(Current()), Request(ip, now))
    {
      if now - lastSweep > 60.0 {
        SweepStale(now);
        lastSweep := now;
      }
      var b := if ip in buckets then buckets[ip] else Bucket(config.Capacity(), now);
      var elapsed := now - b.lastCheck;
      var tokens := b.tokens + Refill(config.rate, elapsed);
      if tokens > config.Capacity() {
        tokens := config.Capacity();
      }
      assert tokens == Level(config, buckets, ip, now);
      if tokens < 1.0 {
        buckets := buckets[ip := Bucket(tokens, now)];
        return false;
      }
      buckets := buckets[ip := Bucket(tokens - 1.0, now)];
      ok := true;
    }
  }

  /** A sweep is due, and the bucket has not been used for two minutes. */
  predicate Forgotten(st: State, ip: string, now: real)
    requires ip in st.buckets
  {
    now - st.lastSweep > 60.0 && now - st.buckets[ip].lastCheck > 120.0
  }

  /**
   One request, spelt out: its address has a full bucket if it has none or that is forgotten, and else what is left of it
   with the refill, up to burst; one token is taken if there is one. The other buckets stay, unless they are forgotten.
   */
  lemma AllowMeans(c: Config, st: State, r: Request)
    ensures var (st', ok) := Allow(c, st, r);
            var known := r.ip in st.buckets && !Forgotten(st, r.ip, r.at);
            var filled := if known then st.buckets[r.ip].tokens + Refill(c.rate, r.at - st.buckets[r.ip].lastCheck)
                          else c.burst as real;
            var tokens := if filled > c.burst as real then c.burst as real else filled;
            && (ok <==> tokens >= 1.0)
            && st'.lastSweep == (if r.at - st.lastSweep > 60.0 then r.at else st.lastSweep)
            && r.ip in st'.buckets && st'.buckets[r.ip] == Bucket(if ok then tokens - 1.0 else tokens, r.at)
            && forall ip :: ip != r.ip ==>
                 (ip in st'.buckets <==> ip in st.buckets && !Forgotten(st, ip, r.at))
                 && (ip in st'.buckets ==> st'.buckets[ip] == st.buckets[ip])
  {
    hide Refill;
  }

  // Every stored bucket, in every reachable state.

  predicate Sound(c: Config, buckets: Buckets, now: real) {
    forall ip :: ip in buckets ==> 0.0 <= buckets[ip].tokens <= c.Capacity() && buckets[ip].lastCheck <= now
  }

  lemma LevelBounds(c: Config, buckets: Buckets, ip: string, t: real, now: real)
    requires c.Valid() && Sound(c, buckets, t) && t <= now
    ensures 0.0 <= Level(c, buckets, ip, now) <= c.Capacity()
  {
  }

  lemma TakeSound(c: Config, buckets: Buckets, r: Request, t: real)
    requires c.Valid() && Sound(c, buckets, t) && t <= r.at
    ensures Sound(c, Take(c, buckets, r).0, r.at)
  {
    LevelBounds(c, buckets, r.ip, t, r.at);
  }

  /** 0 <= tokens <= burst for every stored bucket after every run of requests. */
  lemma {:induction false} ReachableSound(c: Config, st: State, reqs: seq<Request>, t: real) returns (end: real)
    requires c.Valid() && Sound(c, st.buckets, t) && Ordered(t, reqs)
    ensures Sound(c, After(c, st, reqs).buckets, end)
    ensures end == if reqs == [] then t else reqs[|reqs| - 1].at
    decreases |reqs|
  {
    end := t;
    if reqs != [] {
      TakeSound(c, Sweep(st, reqs[0].at).buckets, reqs[0], t);
      end := ReachableSound(c, Allow(c, st, reqs[0]).0, reqs[1..], reqs[0].at);
    }
  }

  // Forgetting stale buckets cannot be observed.

  /** A bucket that was swept is full again; every other bucket is the same in both limiters. */
  ghost predicate Agrees(c: Config, buckets: Buckets, full: Buckets, now: real) {
    && Sound(c, full, now)
    && forall ip :: (ip in buckets ==> ip in full && buckets[ip] == full[ip])
                 && (ip !in buckets ==> Level(c, full, ip, now) == c.Capacity())
  }

  lemma LevelStaysFull(c: Config, full: Buckets, ip: string, t: real, now: real)
    requires c.Valid() && t <= now && Level(c, full, ip, t) == c.Capacity()
    ensures Level(c, full, ip, now) == c.Capacity()
  {
    if ip in full { RefillGrows(c.rate, t - full[ip].lastCheck, now - full[ip].lastCheck); }
  }

  lemma StaleIsFull(c: Config, full: Buckets, ip: string, now: real)
    requires c.Valid() && c.RefillsBeforeSweep() && Sound(c, full, now)
    requires ip in full && now - full[ip].lastCheck > 120.0
    ensures Level(c, full, ip, now) == c.Capacity()
  {
    RefillGrows(c.rate, 120.0, now - full[ip].lastCheck);
  }

  lemma SweepAgrees(c: Config, st: State, full: Buckets, t: real, now: real)
    requires c.Valid() && c.RefillsBeforeSweep() && t <= now && Agrees(c, st.buckets, full, t)
    ensures Agrees(c, Sweep(st, now).buckets, full, now)
  {
    var buckets := Sweep(st, now).buckets;
    forall ip | ip !in buckets ensures Level(c, full, ip, now) == c.Capacity() {
      if ip in st.buckets { StaleIsFull(c, full, ip, now); } else { LevelStaysFull(c, full, ip, t, now); }
    }
  }

  lemma LevelAgrees(c: Config, buckets: Buckets, full: Buckets, ip: string, now: real)
    requires Agrees(c, buckets, full, now)
    ensures Level(c, buckets, ip, now) == Level(c, full, ip, now)
  {
  }

  /** A request of one address does not touch the level of another. */
  lemma LevelOfOthers(c: Config, buckets: Buckets, r: Request, ip: string, now: real)
    requires ip != r.ip
    ensures Level(c, Take(c, buckets, r).0, ip, now) == Level(c, buckets, ip, now)
  {
  }

  lemma TakeAgrees(c: Config, buckets: Buckets, full: Buckets, r: Request)
    requires c.Valid() && Agrees(c, buckets, full, r.at)
    ensures Take(c, buckets, r).1 == Take(c, full, r).1
    ensures Agrees(c, Take(c, buckets, r).0, Take(c, full, r).0, r.at)
  {
    LevelAgrees(c, buckets, full, r.ip, r.at);
    TakeSound(c, full, r, r.at);
    var b', f' := Take(c, buckets, r).0, Take(c, full, r).0;
    assert b'[r.ip] == f'[r.ip];
    forall ip
      ensures ip in b' ==> ip in f' && b'[ip] == f'[ip]
      ensures ip !in b' ==> Level(c, f', ip, r.at) == c.Capacity()
    {
      if ip != r.ip { LevelOfOthers(c, full, r, ip, r.at); }
      hide Level;
    }
  }

  lemma {:induction false} SweepingUnobserved(c: Config, st: State, full: Buckets, reqs: seq<Request>, t: real)
    requires c.Valid() && c.RefillsBeforeSweep() && Ordered(t, reqs) && Agrees(c, st.buckets, full, t)
    ensures Answers(c, st, reqs) == FullAnswers(c, full, reqs)
    decreases |reqs|
  {
    if reqs != [] {
      var r := reqs[0];
      SweepAgrees(c, st, full, t, r.at);
      TakeAgrees(c, Sweep(st, r.at).buckets, full, r);
      SweepingUnobserved(c, Allow(c, st, r).0, Take(c, full, r).0, reqs[1..], r.at);
    }
  }

  lemma {:induction false} OrderedIndex(t: real, reqs: seq<Request>, k: nat)
    requires Ordered(t, reqs) && k < |reqs|
    ensures t <= reqs[k].at && Ordered(reqs[k].at, reqs[k..]) && Ordered(t, reqs[..k])
    decreases |reqs|
  {
    if k > 0 {
      OrderedIndex(reqs[0].at, reqs[1..], k - 1);
      assert reqs[1..][k - 1..] == reqs[k..];
      assert reqs[..k][1..] == reqs[1..][..k - 1];
    } else {
      assert reqs[0..] == reqs;
    }
  }

  lemma {:induction false} OrderedPrefix(t: real, reqs: seq<Request>, j: nat)
    requires Ordered(t, reqs) && j <= |reqs|
    ensures Ordered(t, reqs[..j])
  {
    if j < |reqs| { OrderedIndex(t, reqs, j); } else { assert reqs[..j] == reqs; }
  }

  // What one address can get.

  function FullAfter(c: Config, buckets: Buckets, reqs: seq<Request>): Buckets
    decreases |reqs|
  {
    if reqs == [] then buckets else FullAfter(c, Take(c, buckets, reqs[0]).0, reqs[1..])
  }

  /** Between two requests the level of an address rises by at most rate * elapsed. */
  lemma LevelRises(c: Config, buckets: Buckets, ip: string, t: real, now: real)
    requires c.Valid() && t <= now
    ensures Level(c, buckets, ip, now) <= Level(c, buckets, ip, t) + Refill(c.rate, now - t)
  {
    if ip in buckets { RefillAdds(c.rate, t - buckets[ip].lastCheck, now - t); }
  }

  /** The potential argument: admitted requests are paid for by the level at the start and the refill since. */
  lemma {:induction false} AdmittedIsPaid(c: Config, buckets: Buckets, reqs: seq<Request>, ip: string, t: real, end: real)
    requires c.Valid() && Sound(c, buckets, t) && Ordered(t, reqs)
    requires t <= end && (reqs != [] ==> reqs[|reqs| - 1].at <= end)
    ensures Admitted(reqs, FullAnswers(c, buckets, reqs), ip) as real <= Level(c, buckets, ip, t) + Refill(c.rate, end - t)
    decreases |reqs|
  {
    LevelBounds(c, buckets, ip, t, t);
    if reqs != [] {
      var r := reqs[0];
      var (next, ok) := Take(c, buckets, r);
      if |reqs| > 1 { OrderedIndex(r.at, reqs[1..], |reqs| - 2); }
      TakeSound(c, buckets, r, t);
      AdmittedIsPaid(c, next, reqs[1..], ip, r.at, end);
      LevelRises(c, buckets, ip, t, r.at);
      LevelTaken(c, buckets, r, ip, t);
      assert FullAnswers(c, buckets, reqs)[1..] == FullAnswers(c, next, reqs[1..]);
      RefillAdds(c.rate, end - r.at, r.at - t);
      hide Level, Take, Refill;
    }
  }

  lemma LevelTaken(c: Config, buckets: Buckets, r: Request, ip: string, t: real)
    requires c.Valid() && Sound(c, buckets, t) && t <= r.at
    ensures Level(c, Take(c, buckets, r).0, ip, r.at)
         == Level(c, buckets, ip, r.at) - if r.ip == ip && Take(c, buckets, r).1 then 1.0 else 0.0
  {
    LevelBounds(c, buckets, ip, t, r.at);
  }

  lemma {:induction false} FullAnswersFrom(c: Config, buckets: Buckets, reqs: seq<Request>, i: nat)
    requires i <= |reqs|
    ensures FullAnswers(c, buckets, reqs)[i..] == FullAnswers(c, FullAfter(c, buckets, reqs[..i]), reqs[i..])
    decreases |reqs|
  {
    if i > 0 {
      FullAnswersFrom(c, Take(c, buckets, reqs[0]).0, reqs[1..], i - 1);
      assert reqs[..i][1..] == reqs[1..][..i - 1] && reqs[1..][i - 1..] == reqs[i..];
    }
  }

  lemma {:induction false} FullAnswersUpTo(c: Config, buckets: Buckets, reqs: seq<Request>, j: nat)
    requires j <= |reqs|
    ensures FullAnswers(c, buckets, reqs)[..j] == FullAnswers(c, buckets, reqs[..j])
    decreases |reqs|
  {
    if j > 0 {
      FullAnswersUpTo(c, Take(c, buckets, reqs[0]).0, reqs[1..], j - 1);
      assert reqs[..j][1..] == reqs[1..][..j - 1];
    }
  }

  lemma {:induction false} FullAfterSound(c: Config, buckets: Buckets, reqs: seq<Request>, t: real, now: real)
    requires c.Valid() && Sound(c, buckets, t) && Ordered(t, reqs) && t <= now
    requires reqs != [] ==> reqs[|reqs| - 1].at <= now
    ensures Sound(c, FullAfter(c, buckets, reqs), now)
    decreases |reqs|
  {
    if reqs != [] {
      OrderedIndex(t, reqs, |reqs| - 1);
      if |reqs| > 1 { OrderedIndex(reqs[0].at, reqs[1..], |reqs| - 2); }
      TakeSound(c, buckets, reqs[0], t);
      FullAfterSound(c, Take(c, buckets, reqs[0]).0, reqs[1..], reqs[0].at, now);
    }
  }

  lemma WindowBound(c: Config, start: real, reqs: seq<Request>, ip: string, i: nat, j: nat)
    requires c.Valid() && c.RefillsBeforeSweep() && Ordered(start, reqs) && i < j <= |reqs|
    ensures WindowHolds(c, start, reqs, ip, i, j)
  {
    SweepingUnobserved(c, New(start), map[], reqs, start);
    FullWindow(c, start, reqs, ip, i, j);
    AllowanceRefills(c, reqs[j - 1].at - reqs[i].at);
    hide Allowance, Refill;
  }

  /** The bound for the limiter that never forgets. */
  lemma FullWindow(c: Config, start: real, reqs: seq<Request>, ip: string, i: nat, j: nat)
    requires c.Valid() && Ordered(start, reqs) && i < j <= |reqs|
    ensures Admitted(reqs[i..j], FullAnswers(c, map[], reqs)[i..j], ip) as real
         <= c.Capacity() + Refill(c.rate, reqs[j - 1].at - reqs[i].at)
  {
    hide Refill, Level, Admitted;
    OrderedIndex(start, reqs, i);
    var now, full := reqs[i].at, FullAfter(c, map[], reqs[..i]);
    BeforeWindow(start, reqs, i);
    assert Sound(c, map[], start);
    hide Sound, Ordered, FullAfter, FullAnswers;
    FullAfterSound(c, map[], reqs[..i], start, now);
    FullAnswersFrom(c, map[], reqs, i);
    WindowFrom(c, full, reqs[i..], ip, now, j - i);
    assert reqs[i..][..j - i] == reqs[i..j];
    assert FullAnswers(c, map[], reqs)[i..j] == FullAnswers(c, map[], reqs)[i..][..j - i];
  }

  lemma BeforeWindow(start: real, reqs: seq<Request>, i: nat)
    requires Ordered(start, reqs) && i < |reqs|
    ensures Ordered(start, reqs[..i]) && start <= reqs[i].at
    ensures i > 0 ==> reqs[..i][i - 1].at <= reqs[i].at
  {
    OrderedIndex(start, reqs, i);
    if i > 0 {
      OrderedIndex(start, reqs, i - 1);
      assert reqs[i - 1..][1..] == reqs[i..];
    }
  }

  lemma WindowFrom(c: Config, full: Buckets, reqs: seq<Request>, ip: string, now: real, n: nat)
    requires c.Valid() && Sound(c, full, now) && Ordered(now, reqs) && 0 < n <= |reqs|
    ensures Admitted(reqs[..n], FullAnswers(c, full, reqs)[..n], ip) as real <= c.Capacity() + Refill(c.rate, reqs[n - 1].at - now)
  {
    OrderedPrefix(now, reqs, n);
    OrderedIndex(now, reqs, n - 1);
    FullAnswersUpTo(c, full, reqs, n);
    AdmittedIsPaid(c, full, reqs[..n], ip, now, reqs[n - 1].at);
    LevelBounds(c, full, ip, now, now);
  }

  // No request is refused without need.

  /** In every window that ends with it, request `k` still fits beside those of its address that were admitted. */
  predicate Fits(c: Config, reqs: seq<Request>, answers: seq<bool>, k: nat)
    requires k < |reqs| == |answers|
  {
    forall i :: 0 <= i <= k ==> FitsFrom(c, reqs, answers, i, k)
  }

  predicate FitsFrom(c: Config, reqs: seq<Request>, answers: seq<bool>, i: nat, k: nat)
    requires i <= k < |reqs| == |answers|
  {
    Admitted(reqs[i..k], answers[i..k], reqs[k].ip) as real + 1.0 <= Allowance(c, reqs[k].at - reqs[i].at)
  }

  lemma FitsByRefill(c: Config, reqs: seq<Request>, answers: seq<bool>, i: nat, k: nat)
    requires i <= k < |reqs| == |answers|
    ensures FitsFrom(c, reqs, answers, i, k) <==>
            Admitted(reqs[i..k], answers[i..k], reqs[k].ip) as real + 1.0 <= c.Capacity() + Refill(c.rate, reqs[k].at - reqs[i].at)
  {
    AllowanceRefills(c, reqs[k].at - reqs[i].at);
    hide Allowance, Refill, Admitted;
  }

  /**
   The level is what a full bucket would be down to since request `i`, less what was admitted since; with i beyond the
   last, a full bucket; with i < 0, what the start and the refill since come to, less all that was admitted.
   */
  predicate Since(c: Config, reqs: seq<Request>, a: seq<bool>, ip: string, now: real, filled: real, level: real, i: int)
    requires |a| == |reqs|
  {
    && -1 <= i <= |reqs|
    && level == if i < 0 then filled - Admitted(reqs, a, ip) as real
                else if i == |reqs| then c.Capacity()
                else c.Capacity() + Refill(c.rate, now - reqs[i].at) - Admitted(reqs[i..], a[i..], ip) as real
  }

  lemma SinceLater(c: Config, reqs: seq<Request>, a: seq<bool>, ip: string, now: real, f: real, filled: real, level: real, i: int)
    requires |a| == |reqs| > 0 && i >= 0 && Since(c, reqs[1..], a[1..], ip, now, f, level, i)
    ensures Since(c, reqs, a, ip, now, filled, level, i + 1)
  {
    hide Admitted, Refill;
    assert reqs[1..][i..] == reqs[i + 1..] && a[1..][i..] == a[i + 1..];
  }

  lemma SinceFirst(c: Config, reqs: seq<Request>, a: seq<bool>, ip: string, now: real, filled: real, level: real, taken: nat)
    requires |a| == |reqs| > 0 && Admitted(reqs, a, ip) == taken + Admitted(reqs[1..], a[1..], ip)
    requires level == c.Capacity() - taken as real + Refill(c.rate, now - reqs[0].at) - Admitted(reqs[1..], a[1..], ip) as real
    ensures Since(c, reqs, a, ip, now, filled, level, 0)
  {
    hide Admitted, Refill;
    assert reqs[0..] == reqs && a[0..] == a;
  }

  lemma {:induction false} LevelSince(c: Config, buckets: Buckets, reqs: seq<Request>, ip: string, t: real, now: real)
    returns (i: int)
    requires c.Valid() && Sound(c, buckets, t) && Ordered(t, reqs)
    requires t <= now && (reqs != [] ==> reqs[|reqs| - 1].at <= now)
    ensures Since(c, reqs, FullAnswers(c, buckets, reqs), ip, now, Level(c, buckets, ip, t) + Refill(c.rate, now - t),
                  Level(c, FullAfter(c, buckets, reqs), ip, now), i)
    decreases |reqs|
  {
    if reqs == [] {
      i := LevelAtOnce(c, buckets, ip, t, now);
    } else {
      hide Level, Take, Refill, FullAfter, FullAnswers, Sound, Admitted;
      var r := reqs[0];
      var next := Take(c, buckets, r).0;
      RestOrdered(t, reqs, now);
      hide Ordered, Since;
      OneRequest(c, buckets, reqs, ip);
      TakeSound(c, buckets, r, t);
      i := LevelSince(c, next, reqs[1..], ip, r.at, now);
      LevelTaken(c, buckets, r, ip, t);
      var j := LevelAtOnce(c, buckets, ip, t, r.at);
      i := SinceStep(c, reqs, FullAnswers(c, buckets, reqs), ip, t, now, Level(c, buckets, ip, t), Level(c, buckets, ip, r.at),
                     Level(c, FullAfter(c, buckets, reqs), ip, now), if r.ip == ip && Take(c, buckets, r).1 then 1 else 0, i, j);
    }
  }

  lemma RestOrdered(t: real, reqs: seq<Request>, now: real)
    requires Ordered(t, reqs) && reqs != [] && reqs[|reqs| - 1].at <= now
    ensures t <= reqs[0].at <= now && Ordered(reqs[0].at, reqs[1..])
    ensures reqs[1..] != [] ==> reqs[1..][|reqs[1..]| - 1].at <= now
  {
    if |reqs| > 1 { OrderedIndex(reqs[0].at, reqs[1..], |reqs| - 2); }
  }

  /** One request more in front: `l` was the level at the start, `m` the level it met, and `taken` what it took. */
  lemma SinceStep(c: Config, reqs: seq<Request>, a: seq<bool>, ip: string, t: real, now: real, l: real, m: real, level: real,
                  taken: nat, i: int, j: int) returns (k: int)
    requires |a| == |reqs| > 0 && Admitted(reqs, a, ip) == taken + Admitted(reqs[1..], a[1..], ip)
    requires m == if j < 0 then l + Refill(c.rate, reqs[0].at - t) else c.Capacity()
    requires Since(c, reqs[1..], a[1..], ip, now, m - taken as real + Refill(c.rate, now - reqs[0].at), level, i)
    ensures Since(c, reqs, a, ip, now, l + Refill(c.rate, now - t), level, k)
  {
    var filled := l + Refill(c.rate, now - t);
    if i >= 0 {
      SinceLater(c, reqs, a, ip, now, m - taken as real + Refill(c.rate, now - reqs[0].at), filled, level, i);
      k := i + 1;
    } else if j >= 0 {
      SinceFirst(c, reqs, a, ip, now, filled, level, taken);
      k := 0;
    } else {
      RefillAdds(c.rate, now - reqs[0].at, reqs[0].at - t);
      assert now - t == now - reqs[0].at + (reqs[0].at - t);
      hide Refill, Admitted;
      k := -1;
    }
  }

  lemma OneRequest(c: Config, buckets: Buckets, reqs: seq<Request>, ip: string)
    requires reqs != []
    ensures var (next, ok) := Take(c, buckets, reqs[0]);
            && FullAfter(c, buckets, reqs) == FullAfter(c, next, reqs[1..])
            && FullAnswers(c, buckets, reqs)[1..] == FullAnswers(c, next, reqs[1..])
            && Admitted(reqs, FullAnswers(c, buckets, reqs), ip)
               == (if reqs[0].ip == ip && ok then 1 else 0) + Admitted(reqs[1..], FullAnswers(c, next, reqs[1..]), ip)
  {
    hide Take;
    var (next, ok) := Take(c, buckets, reqs[0]);
    assert ([ok] + FullAnswers(c, next, reqs[1..]))[1..] == FullAnswers(c, next, reqs[1..]);
  }

  /** Without a request: the refill since, or a full bucket. */
  lemma LevelAtOnce(c: Config, buckets: Buckets, ip: string, t: real, now: real) returns (i: int)
    requires c.Valid() && Sound(c, buckets, t) && t <= now
    ensures -1 <= i <= 0
    ensures Level(c, buckets, ip, now) == if i < 0 then Level(c, buckets, ip, t) + Refill(c.rate, now - t) else c.Capacity()
  {
    i := 0;
    if ip in buckets {
      RefillAdds(c.rate, t - buckets[ip].lastCheck, now - t);
      RefillGrows(c.rate, 0.0, now - t);
      if Level(c, buckets, ip, now) < c.Capacity() {
        i := -1;
      }
    }
  }

  /** The limiter that never forgets admits exactly the requests that fit. */
  lemma FullAdmits(c: Config, start: real, reqs: seq<Request>, k: nat)
    requires c.Valid() && Ordered(start, reqs) && k < |reqs|
    ensures FullAnswers(c, map[], reqs)[k] <==> Fits(c, reqs, FullAnswers(c, map[], reqs), k)
  {
    hide FullAnswers, Admitted, FitsFrom, Refill, Level;
    var a := FullAnswers(c, map[], reqs);
    if a[k] {
      forall i: nat | i <= k ensures FitsFrom(c, reqs, a, i, k) {
        FullWindow(c, start, reqs, reqs[k].ip, i, k + 1);
        OneMoreAdmitted(reqs, a, i, k);
        FitsByRefill(c, reqs, a, i, k);
      }
    } else {
      var i := Crowded(c, start, reqs, k);
      FitsByRefill(c, reqs, a, i, k);
      assert !FitsFrom(c, reqs, a, i, k);
    }
  }

  /** A refused request has a window in which it does not fit. */
  lemma Crowded(c: Config, start: real, reqs: seq<Request>, k: nat) returns (i: nat)
    requires c.Valid() && Ordered(start, reqs) && k < |reqs| && !FullAnswers(c, map[], reqs)[k]
    ensures i <= k
    ensures Admitted(reqs[i..k], FullAnswers(c, map[], reqs)[i..k], reqs[k].ip) as real + 1.0
            > c.Capacity() + Refill(c.rate, reqs[k].at - reqs[i].at)
  {
    hide FullAnswers, Refill;
    var a, front, ip, now := FullAnswers(c, map[], reqs), reqs[..k], reqs[k].ip, reqs[k].at;
    BeforeWindow(start, reqs, k);
    var j := LevelSince(c, map[], front, ip, start, now);
    RefusedAt(c, reqs, k);
    FullAnswersUpTo(c, map[], reqs, k);
    assert Level(c, map[], ip, start) == c.Capacity();
    hide Level, Admitted, Ordered;
    if j < 0 {
      i := 0;
      if k > 0 {
        FirstAfter(start, reqs);
        RefillGrows(c.rate, now - reqs[0].at, now - start);
      }
      assert reqs[0..k] == front && a[0..k] == a[..k];
    } else {
      i := j;
      assert front[i..] == reqs[i..k] && a[..k][i..] == a[i..k];
    }
    if i == k {
      NoneAdmitted(reqs[k..k], a[k..k], ip);
    }
  }

  lemma NoneAdmitted(reqs: seq<Request>, answers: seq<bool>, ip: string)
    requires |reqs| == |answers| == 0
    ensures Admitted(reqs, answers, ip) == 0
  {
  }

  lemma FirstAfter(start: real, reqs: seq<Request>)
    requires Ordered(start, reqs) && reqs != []
    ensures start <= reqs[0].at
  {
  }

  lemma RefusedAt(c: Config, reqs: seq<Request>, k: nat)
    requires k < |reqs|
    ensures FullAnswers(c, map[], reqs)[k] <==> Level(c, FullAfter(c, map[], reqs[..k]), reqs[k].ip, reqs[k].at) >= 1.0
  {
    FullAnswersFrom(c, map[], reqs, k);
    assert FullAnswers(c, map[], reqs)[k] == FullAnswers(c, map[], reqs)[k..][0];
  }

  lemma {:induction false} AdmittedSnoc(reqs: seq<Request>, answers: seq<bool>, ip: string)
    requires |reqs| == |answers| > 0
    ensures var n := |reqs| - 1;
            Admitted(reqs, answers, ip) == Admitted(reqs[..n], answers[..n], ip) + if reqs[n].ip == ip && answers[n] then 1 else 0
    decreases |reqs|
  {
    var n := |reqs| - 1;
    if n > 0 {
      AdmittedSnoc(reqs[1..], answers[1..], ip);
      assert reqs[..n][1..] == reqs[1..][..n - 1] && answers[..n][1..] == answers[1..][..n - 1];
    }
  }

  lemma OneMoreAdmitted(reqs: seq<Request>, answers: seq<bool>, i: nat, k: nat)
    requires i <= k < |reqs| == |answers| && answers[k]
    ensures Admitted(reqs[i..k + 1], answers[i..k + 1], reqs[k].ip) == Admitted(reqs[i..k], answers[i..k], reqs[k].ip) + 1
  {
    AdmittedSnoc(reqs[i..k + 1], answers[i..k + 1], reqs[k].ip);
    assert reqs[i..k + 1][..k - i] == reqs[i..k] && answers[i..k + 1][..k - i] == answers[i..k];
  }

  // When the condition fails: drain a bucket, wait until it is swept, drain it again.

  function Repeat(ip: string, at: real, n: nat): (reqs: seq<Request>)
    ensures |reqs| == n && forall k :: 0 <= k < n ==> reqs[k] == Request(ip, at)
  {
    seq(n, _ => Request(ip, at))
  }

  /** A bucket with n tokens, checked just now, answers n requests with yes. */
  lemma {:induction false} Drains(c: Config, st: State, ip: string, at: real, n: nat, rest: seq<Request>) returns (end: State)
    requires n as real <= Level(c, Sweep(st, at).buckets, ip, at)
    requires Sweep(st, at) == st
    ensures Answers(c, st, Repeat(ip, at, n) + rest)[n..] == Answers(c, end, rest)
    ensures forall k :: 0 <= k < n ==> Answers(c, st, Repeat(ip, at, n) + rest)[k]
    ensures end.lastSweep == st.lastSweep
    ensures n > 0 ==> ip in end.buckets && end.buckets[ip].lastCheck == at
    ensures forall k :: k in end.buckets && k != ip ==> k in st.buckets
    decreases n
  {
    var reqs := Repeat(ip, at, n) + rest;
    end := st;
    if n == 0 {
      assert reqs == rest;
    } else {
      var next := Allow(c, st, reqs[0]).0;
      assert reqs[1..] == Repeat(ip, at, n - 1) + rest;
      if n > 1 {
        assert SweepKeeps(next, at);
        end := Drains(c, next, ip, at, n - 1, rest);
      } else {
        end := next;
        assert reqs[1..] == rest;
      }
    }
  }

  predicate SweepKeeps(st: State, now: real) { Sweep(st, now) == st }

  lemma {:induction false} AllAdmitted(reqs: seq<Request>, answers: seq<bool>, ip: string)
    requires |reqs| == |answers|
    requires forall k :: 0 <= k < |reqs| ==> reqs[k].ip == ip && answers[k]
    ensures Admitted(reqs, answers, ip) == |reqs|
  {
    if reqs != [] { AllAdmitted(reqs[1..], answers[1..], ip); }
  }

  /** How long to wait: longer than two minutes, yet not long enough to fill up. */
  function Pause(c: Config): real {
    if c.rate > 0.0 then (120.0 + c.Capacity() / c.rate) / 2.0 else 121.0
  }

  lemma PauseFits(c: Config)
    requires c.Valid() && !c.RefillsBeforeSweep()
    ensures Pause(c) > 120.0 && Refill(c.rate, Pause(c)) < c.Capacity()
  {
    if c.rate > 0.0 {
      var q := c.Capacity() / c.rate;
      assert Refill(c.rate, q) == c.Capacity();
      if q <= 120.0 { RefillGrows(c.rate, q, 120.0); }
      RefillAdds(c.rate, Pause(c), Pause(c));
      RefillAdds(c.rate, 120.0, q);
      assert Pause(c) + Pause(c) == 120.0 + q;
    }
  }

  /** The second burst finds its bucket swept away, and is admitted in full. */
  lemma SecondBurst(c: Config, mid: State, t: real)
    requires t > 120.0 && mid.lastSweep == 0.0
    requires forall k :: k in mid.buckets ==> k == "" && mid.buckets[k].lastCheck == 0.0
    ensures forall k :: 0 <= k < c.burst ==> Answers(c, mid, Repeat("", t, c.burst))[k]
  {
    var second := Repeat("", t, c.burst);
    var swept := Sweep(mid, t);
    assert swept == State(map[], t);
    var end := Drains(c, swept, "", t, c.burst, []);
    assert second + [] == second;
    if c.burst > 0 {
      assert Sweep(swept, t) == swept;
      assert Allow(c, mid, second[0]) == Allow(c, swept, second[0]);
    }
  }

  lemma {:induction false} RepeatOrdered(ip: string, at: real, n: nat, rest: seq<Request>, t: real)
    requires t <= at && Ordered(at, rest)
    ensures Ordered(t, Repeat(ip, at, n) + rest)
    decreases n
  {
    var reqs := Repeat(ip, at, n) + rest;
    if n == 0 {
      assert reqs == rest;
    } else {
      assert reqs[1..] == Repeat(ip, at, n - 1) + rest;
      RepeatOrdered(ip, at, n - 1, rest, at);
    }
  }

  lemma OrderedEarlier(t: real, u: real, reqs: seq<Request>)
    requires t <= u && Ordered(u, reqs)
    ensures Ordered(t, reqs)
  {
  }

  /** Both bursts are admitted in full, twice the capacity within the pause. */
  lemma TwoBursts(c: Config) returns (reqs: seq<Request>)
    requires c.Valid() && !c.RefillsBeforeSweep()
    ensures Ordered(0.0, reqs) && |reqs| == 2 * c.burst
    ensures reqs[0].at == 0.0 && reqs[|reqs| - 1].at == Pause(c)
    ensures Admitted(reqs, Answers(c, New(0.0), reqs), "") == 2 * c.burst && reqs[|reqs| - 1].ip == ""
  {
    var n, t := c.burst, Pause(c);
    PauseFits(c);
    var second := Repeat("", t, n);
    reqs := Repeat("", 0.0, n) + second;
    assert second + [] == second;
    RepeatOrdered("", t, n, [], t);
    OrderedEarlier(0.0, t, second);
    RepeatOrdered("", 0.0, n, second, 0.0);
    var mid := Drains(c, New(0.0), "", 0.0, n, second);
    SecondBurst(c, mid, t);
    hide Answers;
    var a := Answers(c, New(0.0), reqs);
    forall k | 0 <= k < |reqs| ensures reqs[k].ip == "" && a[k] {
      if k >= n { assert a[k] == a[n..][k - n]; }
    }
    AllAdmitted(reqs, a, "");
  }

  lemma BurstsBreakTheWindow(c: Config) returns (reqs: seq<Request>)
    requires c.Valid() && !c.RefillsBeforeSweep()
    ensures Ordered(0.0, reqs) && |reqs| > 0 && !WindowHolds(c, 0.0, reqs, "", 0, |reqs|)
    ensures Answers(c, New(0.0), reqs) != FullAnswers(c, map[], reqs)
    ensures reqs[|reqs| - 1].ip == "" && Admitted(reqs, Answers(c, New(0.0), reqs), "") == |reqs|
  {
    reqs := TwoBursts(c);
    PauseFits(c);
    assert reqs[0..|reqs|] == reqs;
    var a := Answers(c, New(0.0), reqs);
    assert a[0..|reqs|] == a;
    AdmittedIsPaid(c, map[], reqs, "", 0.0, Pause(c));
    AllowanceRefills(c, Pause(c));
    hide Allowance;
  }

  // The main results.

  ghost predicate SweepingNeverShows(c: Config) {
    forall start, reqs :: Ordered(start, reqs) ==> Answers(c, New(start), reqs) == FullAnswers(c, map[], reqs)
  }

  ghost predicate EveryWindowHolds(c: Config) {
    forall start, reqs, ip, i: nat, j: nat :: Ordered(start, reqs) && i < j <= |reqs| ==> WindowHolds(c, start, reqs, ip, i, j)
  }

  /**
   Over all request sequences at non-decreasing times, the limiter answers as one that never forgets a
   bucket if and only if a bucket refills in the two minutes after which it may be swept.
   */
  lemma SweepingIsUnobservable(c: Config)
    requires c.Valid()
    ensures SweepingNeverShows(c) <==> c.RefillsBeforeSweep()
  {
    if c.RefillsBeforeSweep() {
      forall start, reqs | Ordered(start, reqs) ensures Answers(c, New(start), reqs) == FullAnswers(c, map[], reqs) {
        SweepingUnobserved(c, New(start), map[], reqs, start);
      }
    } else {
      var reqs := BurstsBreakTheWindow(c);
      assert Ordered(0.0, reqs);
    }
  }

  /** Under the same condition, and only then, no window of any run admits more than burst + rate * duration. */
  lemma WindowsAreBounded(c: Config)
    requires c.Valid()
    ensures EveryWindowHolds(c) <==> c.RefillsBeforeSweep()
  {
    if c.RefillsBeforeSweep() {
      forall start, reqs, ip, i: nat, j: nat | Ordered(start, reqs) && i < j <= |reqs|
        ensures WindowHolds(c, start, reqs, ip, i, j)
      {
        WindowBound(c, start, reqs, ip, i, j);
      }
    } else {
      var reqs := BurstsBreakTheWindow(c);
      var n: nat := |reqs|;
      assert !WindowHolds(c, 0.0, reqs, "", 0, n);
    }
  }

  ghost predicate AdmitsWhatFits(c: Config) {
    forall start, reqs, k: nat :: Ordered(start, reqs) && k < |reqs| ==>
      (Answers(c, New(start), reqs)[k] <==> Fits(c, reqs, Answers(c, New(start), reqs), k))
  }

  /**
   Under the same condition, and only then, the answers of every run are determined by its windows alone: a request is
   admitted exactly when every window that ends with it stays within burst + rate * duration.
   */
  lemma NothingRefusedWithoutNeed(c: Config)
    requires c.Valid()
    ensures AdmitsWhatFits(c) <==> c.RefillsBeforeSweep()
  {
    if c.RefillsBeforeSweep() {
      forall start, reqs, k: nat | Ordered(start, reqs) && k < |reqs|
        ensures Answers(c, New(start), reqs)[k] <==> Fits(c, reqs, Answers(c, New(start), reqs), k)
      {
        SweepingUnobserved(c, New(start), map[], reqs, start);
        FullAdmits(c, start, reqs, k);
      }
    } else {
      hide Answers, Ordered, Fits, Admitted, Refill, Allowance;
      var reqs := BurstsBreakTheWindow(c);
      AllowanceRefills(c, reqs[|reqs| - 1].at - reqs[0].at);
      var a, k: nat := Answers(c, New(0.0), reqs), |reqs| - 1;
      assert reqs[0..|reqs|] == reqs && a[0..|reqs|] == a;
      LastOfAll(c, reqs, a);
      assert Ordered(0.0, reqs) && a[k] && !Fits(c, reqs, a, k);
    }
  }

  lemma LastOfAll(c: Config, reqs: seq<Request>, a: seq<bool>)
    requires |reqs| == |a| > 0 && Admitted(reqs, a, reqs[|reqs| - 1].ip) == |reqs|
    requires Admitted(reqs, a, reqs[|reqs| - 1].ip) as real > c.Capacity() + Refill(c.rate, reqs[|reqs| - 1].at - reqs[0].at)
    ensures a[|reqs| - 1] && !Fits(c, reqs, a, |reqs| - 1)
  {
    hide Admitted, Refill, FitsFrom;
    var k := |reqs| - 1;
    AdmittedSnoc(reqs, a, reqs[k].ip);
    AtMostAll(reqs[..k], a[..k], reqs[k].ip);
    assert reqs[0..k] == reqs[..k] && a[0..k] == a[..k];
    FitsByRefill(c, reqs, a, 0, k);
    assert !FitsFrom(c, reqs, a, 0, k);
  }

  lemma {:induction false} AtMostAll(reqs: seq<Request>, answers: seq<bool>, ip: string)
    requires |reqs| == |answers|
    ensures Admitted(reqs, answers, ip) <= |reqs|
    decreases |reqs|
  {
    if reqs != [] { AtMostAll(reqs[1..], answers[1..], ip); }
  }

  /** The public limiter and the login limiter are configured within the condition. */
  lemma ConfiguredLimits()
    ensures SweepingNeverShows(Config(100.0, 200)) && EveryWindowHolds(Config(100.0, 200)) && AdmitsWhatFits(Config(100.0, 200))
    ensures SweepingNeverShows(Config(5.0, 10)) && EveryWindowHolds(Config(5.0, 10)) && AdmitsWhatFits(Config(5.0, 10))
  {
    NothingRefusedWithoutNeed(Config(100.0, 200));
    NothingRefusedWithoutNeed(Config(5.0, 10));
    SweepingIsUnobservable(Config(100.0, 200));
    WindowsAreBounded(Config(100.0, 200));
    SweepingIsUnobservable(Config(5.0, 10));
    WindowsAreBounded(Config(5.0, 10));
  }
}
