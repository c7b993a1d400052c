/**
 One field of a cron expression (internal/cron/cron.go): `validateField` and `validateRange` accept a
 field, `parseField` turns it into the set of values it stands for. The step loop runs on 64-bit ints.
 */
module CronField {
  import opened GoStrings

  // The syntax of one comma-separated part, independent of how the code reads it.

  datatype Base = Every | Value(v: int) | Span(a: int, b: int)

  datatype Term = Term(base: Base, step: Step)

  datatype Step = NoStep | By(k: int)

  predicate Numeral(s: string, v: int) { Atoi(s) == Number(v, true) }

  /** `s` is `x` and `y` with the first `c` of `s` between them. */
  predicate Joined(s: string, x: string, c: char, y: string) {
    s == x + [c] + y && c !in x
  }

  ghost predicate WritesBase(s: string, t: Base) {
    match t
    case Every => s == "*"
    case Value(v) => '-' !in s && Numeral(s, v)
    case Span(a, b) => exists x, y :: Joined(s, x, '-', y) && Numeral(x, a) && Numeral(y, b)
  }

  ghost predicate Writes(s: string, t: Term) {
    match t.step
    case NoStep => '/' !in s && WritesBase(s, t.base)
    case By(k) => k > 0 && exists x, y :: Joined(s, x, '/', y) && WritesBase(x, t.base) && Numeral(y, k)
  }

  /** The numbers of a term stay within the limits of its field. */
  predicate Within(t: Term, min: int, max: int) {
    match t.base
    case Every => true
    case Value(v) => min <= v <= max
    case Span(a, b) => min <= a <= b <= max
  }

  function Low(t: Base, min: int): int {
    match t
    case Every => min
    case Value(v) => v
    case Span(a, _) => a
  }

  function High(t: Term, max: int): int {
    match t.base
    case Every => max
    case Value(v) => if t.step.By? then max else v
    case Span(_, b) => b
  }

  /**
   The values a term stands for: `*` is the whole field, `v` one value and `a-b` a range; with a step,
   every k-th value of these counted from the lowest. A single value with a step runs on to the end of
   the field.
   */
  predicate Denotes(t: Term, min: int, max: int, x: int) {
    && Low(t.base, min) <= x <= High(t, max)
    && (t.step.By? ==> t.step.k > 0 && (x - Low(t.base, min)) % t.step.k == 0)
  }

  /** The limits of the five fields all lie in 0-59. */
  predicate Limits(min: int, max: int) { 0 <= min <= max <= 59 }

  // Validation.

  predicate ValidRange(expr: string, min: int, max: int) {
    if '-' in expr then
      var (a, b) := Cut(expr, '-');
      Atoi(a).ok && Atoi(b).ok && min <= Atoi(a).value <= Atoi(b).value <= max
    else Atoi(expr).ok && min <= Atoi(expr).value <= max
  }

  predicate ValidTrimmed(p: string, min: int, max: int) {
    if p == "" then false
    else if p == "*" then true
    else if '/' in p then
      var (base, step) := Cut(p, '/');
      Atoi(step).ok && Atoi(step).value > 0 && (base == "*" || ValidRange(base, min, max))
    else if '-' in p then ValidRange(p, min, max)
    else Atoi(p).ok && min <= Atoi(p).value <= max
  }

  predicate ValidField(field: string, min: int, max: int) {
    forall p :: p in Split(field, ',') ==> ValidTrimmed(TrimSpace(p), min, max)
  }

  lemma NumeralShape(s: string, v: int)
    requires Numeral(s, v)
    ensures s != "" && s != "*"
  {
    assert AllDigits(Unsigned(s));
    assert IsDigit(s[0]) || s != Unsigned(s);
  }

  lemma RangeTerm(expr: string, min: int, max: int) returns (t: Base)
    requires expr == "*" || ValidRange(expr, min, max)
    ensures WritesBase(expr, t) && Within(Term(t, NoStep), min, max)
    ensures t.Every? <==> expr == "*"
  {
    if expr == "*" {
      t := Every;
    } else if '-' in expr {
      var (a, b) := Cut(expr, '-');
      assert Joined(expr, a, '-', b);
      t := Span(Atoi(a).value, Atoi(b).value);
    } else {
      t := Value(Atoi(expr).value);
    }
  }

  lemma TermOf(p: string, min: int, max: int) returns (t: Term)
    requires ValidTrimmed(p, min, max)
    ensures Writes(p, t) && Within(t, min, max)
  {
    if '/' in p && p != "*" {
      var (x, y) := Cut(p, '/');
      assert Joined(p, x, '/', y);
      var b := RangeTerm(x, min, max);
      t := Term(b, By(Atoi(y).value));
    } else {
      var b := RangeTerm(p, min, max);
      t := Term(b, NoStep);
    }
  }

  /** Cutting a base at its first dash finds the numbers it was written with. */
  lemma ReadBase(s: string, t: Base)
    requires WritesBase(s, t)
    ensures s != ""
    ensures t.Every? <==> s == "*"
    ensures t.Value? ==> '-' !in s && Numeral(s, t.v)
    ensures t.Span? ==> '-' in s && Numeral(Cut(s, '-').0, t.a) && Numeral(Cut(s, '-').1, t.b)
  {
    match t
    case Every =>
    case Value(v) => NumeralShape(s, v);
    case Span(a, b) =>
      var x, y :| Joined(s, x, '-', y) && Numeral(x, a) && Numeral(y, b);
      CutUnique(s, '-', x, y);
      assert s[|x|] == '-';
  }

  lemma ReadTerm(p: string, t: Term)
    requires Writes(p, t)
    ensures t.step.NoStep? ==> '/' !in p && WritesBase(p, t.base)
    ensures t.step.By? ==> p != "*" && '/' in p && WritesBase(Cut(p, '/').0, t.base) && Numeral(Cut(p, '/').1, t.step.k)
  {
    if t.step.By? {
      var x, y :| Joined(p, x, '/', y) && WritesBase(x, t.base) && Numeral(y, t.step.k);
      CutUnique(p, '/', x, y);
      assert p[|x|] == '/';
    }
  }

  lemma WrittenIsValid(p: string, t: Term, min: int, max: int)
    requires Writes(p, t) && Within(t, min, max)
    ensures ValidTrimmed(p, min, max)
  {
    ReadTerm(p, t);
    ReadBase(if t.step.By? then Cut(p, '/').0 else p, t.base);
  }

  /** A part is accepted exactly when it writes a term whose numbers lie within the limits. */
  lemma AcceptsTheGrammar(p: string, min: int, max: int)
    ensures ValidTrimmed(p, min, max) <==> exists t :: Writes(p, t) && Within(t, min, max)
  {
    if ValidTrimmed(p, min, max) {
      var t := TermOf(p, min, max);
    }
    forall t | Writes(p, t) && Within(t, min, max)
      ensures ValidTrimmed(p, min, max)
    {
      WrittenIsValid(p, t, min, max);
    }
  }

  // The loop that fills the set: `for i := first; i <= last; i += step` on 64-bit ints.

  datatype Effect = Ignored | Loop(first: int, last: int, step: int)

  /** What `parseField` does with one trimmed part; malformed numbers read as `Atoi` leaves them. */
  function TrimmedEffect(p: string, min: int, max: int): Effect {
    if '/' in p then
      var (base, stepText) := Cut(p, '/');
      var n := Atoi(stepText);
      var step := if !n.ok || n.value <= 0 then 1 else n.value;
      if base == "*" then Loop(min, max, step)
      else if '-' in base then Loop(Atoi(Cut(base, '-').0).value, Atoi(Cut(base, '-').1).value, step)
      else Loop(Atoi(base).value, max, step)
    else if p == "*" then Loop(min, max, 1)
    else if '-' in p then
      var (a, b) := Cut(p, '-');
      if !Atoi(a).ok || !Atoi(b).ok then Ignored else Loop(Atoi(a).value, Atoi(b).value, 1)
    else if Atoi(p).ok && min <= Atoi(p).value <= max then Loop(Atoi(p).value, Atoi(p).value, 1)
    else Ignored
  }

  function PartEffect(part: string, min: int, max: int): Effect {
    TrimmedEffect(TrimSpace(part), min, max)
  }

  function WrapAdd(i: int, step: int): int {
    if i + step > MAX_INT then i + step - 0x1_0000_0000_0000_0000 else i + step
  }

  /** The loop leaves its range within `n` iterations. */
  predicate Leaves(i: int, last: int, step: int, n: nat)
    decreases n
  {
    i > last || (n > 0 && Leaves(WrapAdd(i, step), last, step, n - 1))
  }

  /** The loop ends: on 64-bit ints it may first wrap around any number of times. */
  ghost predicate LoopEnds(e: Effect) {
    e.Ignored? ||
    (MIN_INT <= e.first <= MAX_INT && 1 <= e.step <= MAX_INT && exists n: nat :: Leaves(e.first, e.last, e.step, n))
  }

  function LeastOf(i: int, last: int, step: int, n: nat): (r: nat)
    requires Leaves(i, last, step, n)
    ensures Leaves(i, last, step, r) && (r > 0 ==> !Leaves(i, last, step, r - 1))
  {
    if n > 0 && Leaves(i, last, step, n - 1) then LeastOf(i, last, step, n - 1) else n
  }

  /** How many more iterations follow. */
  ghost function Remaining(i: int, last: int, step: int): (n: nat)
    requires LoopEnds(Loop(i, last, step))
    ensures Leaves(i, last, step, n) && (n > 0 ==> !Leaves(i, last, step, n - 1))
  {
    var n: nat :| Leaves(i, last, step, n);
    LeastOf(i, last, step, n)
  }

  lemma {:induction false} LeavesLater(i: int, last: int, step: int, n: nat, m: nat)
    requires Leaves(i, last, step, n) && n <= m
    ensures Leaves(i, last, step, m)
    decreases n
  {
    if i <= last {
      LeavesLater(WrapAdd(i, step), last, step, n - 1, m - 1);
    }
  }

  /** One iteration brings the end of the loop nearer. */
  lemma NextIteration(i: int, last: int, step: int)
    requires LoopEnds(Loop(i, last, step)) && i <= last
    ensures LoopEnds(Loop(WrapAdd(i, step), last, step))
    ensures Remaining(WrapAdd(i, step), last, step) < Remaining(i, last, step)
  {
    var next, n := WrapAdd(i, step), Remaining(i, last, step);
    assert Leaves(next, last, step, n - 1);
    var m := Remaining(next, last, step);
    if m >= n {
      LeavesLater(next, last, step, n - 1, m - 1);
    }
  }

  /** Loops that stop before they overflow end, and so do loops up to 59: an overflowing step lands far below zero. */
  lemma {:induction false} EndsSoon(i: int, last: int, step: int)
    requires MIN_INT <= i <= MAX_INT && 1 <= step <= MAX_INT && (i > last || last + step <= MAX_INT || last <= 59)
    ensures LoopEnds(Loop(i, last, step))
    decreases if i > last then 0
              else if last + step <= MAX_INT then last - i + 1
              else if i + step > MAX_INT then 2 * i + 400
              else if i + step <= last then 2 * (i + step) + 401
              else 1
  {
    if i > last {
      assert Leaves(i, last, step, 0);
    } else {
      EndsSoon(WrapAdd(i, step), last, step);
      var n: nat :| Leaves(WrapAdd(i, step), last, step, n);
      assert Leaves(i, last, step, n + 1);
    }
  }

  function Walk(i: int, last: int, step: int): set<int>
    requires LoopEnds(Loop(i, last, step))
    decreases Remaining(i, last, step)
  {
    if i > last then {} else
      NextIteration(i, last, step);
      {i} + Walk(WrapAdd(i, step), last, step)
  }

  function EffectSet(e: Effect): set<int>
    requires LoopEnds(e)
  {
    match e
    case Ignored => {}
    case Loop(first, last, step) => Walk(first, last, step)
  }

  ghost predicate AllEnd(effects: seq<Effect>) {
    forall e :: e in effects ==> LoopEnds(e)
  }

  function Effects(field: string, min: int, max: int): seq<Effect> {
    var parts := Split(field, ',');
    seq(|parts|, n requires 0 <= n < |parts| => PartEffect(parts[n], min, max))
  }

  ghost predicate FieldEnds(field: string, min: int, max: int) {
    Limits(min, max) && AllEnd(Effects(field, min, max))
  }

  function Collected(effects: seq<Effect>): set<int>
    requires AllEnd(effects)
  {
    if effects == [] then {}
    else Collected(effects[..|effects| - 1]) + EffectSet(effects[|effects| - 1])
  }

  function ParsedSet(field: string, min: int, max: int): set<int>
    requires FieldEnds(field, min, max)
  {
    var s := Collected(Effects(field, min, max));
    EndsSoon(min, max, 1);
    if s == {} then Walk(min, max, 1) else s
  }

  method FillLoop(s0: set<int>, first: int, last: int, step: int) returns (s: set<int>)
    requires LoopEnds(Loop(first, last, step))
    ensures s == s0 + Walk(first, last, step)
  {
    s := s0;
    var i := first;
    while i <= last
      invariant LoopEnds(Loop(i, last, step))
      invariant s + Walk(i, last, step) == s0 + Walk(first, last, step)
      decreases Remaining(i, last, step)
    {
      NextIteration(i, last, step);
      s := s + {i};
      i := WrapAdd(i, step);
    }
  }

  method ParseField(field: string, min: int, max: int) returns (s: set<int>)
    requires FieldEnds(field, min, max)
    ensures s == ParsedSet(field, min, max)
  {
    hide LoopEnds, Walk, PartEffect;
    s := {};
    var effects := Effects(field, min, max);
    for n := 0 to |effects|
      invariant s == Collected(effects[..n])
    {
      assert effects[..n + 1][..n] == effects[..n];
      match effects[n] {
        case Ignored =>
        case Loop(first, last, step) => s := FillLoop(s, first, last, step);
      }
    }
    assert effects[..|effects|] == effects;
    EndsSoon(min, max, 1);
    if |s| == 0 {
      s := FillLoop(s, min, max, 1);
    }
  }

  // The set read from an accepted field is the set the field denotes, exactly when no step overflows.

  /** The last value the loop reaches before it leaves the range. */
  function LastHit(first: int, last: int, step: int): int
    requires first <= last && step >= 1
  {
    last - (last - first) % step
  }

  predicate StepFits(e: Effect) {
    e.Loop? && e.first <= e.last && e.step >= 1 ==> LastHit(e.first, e.last, e.step) + e.step <= MAX_INT
  }

  lemma {:induction false} MultipleAtLeast(d: int, s: int)
    requires d >= 1 && s > 0
    ensures d * s >= s
    decreases d
  {
    if d > 1 {
      MultipleAtLeast(d - 1, s);
      assert d * s == (d - 1) * s + s;
    }
  }

  lemma MultipleTooFar(d: int, s: int, r: int)
    requires s > 0 && d != 0 && -s < r < s
    ensures d * s != r
  {
    if d > 0 {
      MultipleAtLeast(d, s);
    } else {
      MultipleAtLeast(-d, s);
      assert (-d) * s == -(d * s);
    }
  }

  lemma RemainderUnique(n: int, s: int, q: int, r: int)
    requires s > 0 && 0 <= r < s && n == q * s + r
    ensures n % s == r && n / s == q
  {
    var q', r' := n / s, n % s;
    if q != q' { MultipleTooFar(q - q', s, r' - r); }
  }

  lemma RemainderStep(n: int, s: int)
    requires s > 0
    ensures (n - s) % s == n % s
  {
    RemainderUnique(n - s, s, n / s - 1, n % s);
  }

  predicate Hit(first: int, last: int, step: int, x: int)
    requires step >= 1
  {
    first <= x <= last && (x - first) % step == 0
  }

  lemma HitStep(first: int, last: int, step: int, x: int)
    requires step >= 1 && first + step <= last
    ensures Hit(first, last, step, x) <==> x == first || Hit(first + step, last, step, x)
    ensures LastHit(first, last, step) == LastHit(first + step, last, step)
  {
    RemainderStep(last - first, step);
    RemainderStep(x - first, step);
    if first <= x < first + step { RemainderUnique(x - first, step, 0, x - first); }
  }

  lemma HitLast(first: int, last: int, step: int, x: int)
    requires first <= last < first + step
    ensures Hit(first, last, step, x) <==> x == first
    ensures LastHit(first, last, step) == first
  {
    RemainderUnique(last - first, step, 0, last - first);
    if first <= x <= last { RemainderUnique(x - first, step, 0, x - first); }
  }

  lemma WalkOn(i: int, last: int, step: int)
    requires LoopEnds(Loop(i, last, step)) && i <= last
    ensures LoopEnds(Loop(WrapAdd(i, step), last, step))
    ensures Walk(i, last, step) == {i} + Walk(WrapAdd(i, step), last, step)
    ensures if WrapAdd(i, step) <= last then WrapAdd(i, step) in Walk(i, last, step) else Walk(i, last, step) == {i}
  {
    NextIteration(i, last, step);
  }

  /** Below the point of overflow the loop visits exactly the values a whole number of steps away. */
  lemma {:induction false} WalkVisits(first: int, last: int, step: int, x: int)
    requires 0 <= first <= last <= 59 && 1 <= step <= MAX_INT && LoopEnds(Loop(first, last, step))
    requires LastHit(first, last, step) + step <= MAX_INT
    ensures x in Walk(first, last, step) <==> Hit(first, last, step, x)
    decreases last - first
  {
    hide Walk, Hit, LastHit, LoopEnds;
    LastHitWithin(first, last, step);
    if first + step <= last {
      HitStep(first, last, step, x);
      WalkOn(first, last, step);
      WalkVisits(first + step, last, step, x);
    } else {
      HitLast(first, last, step, x);
      WalkOn(first, last, step);
    }
  }

  /** An overflowing step puts a negative number into the set. */
  lemma WalkOverflows(first: int, last: int, step: int) returns (x: int)
    requires 0 <= first <= last <= 59 && 1 <= step <= MAX_INT && LoopEnds(Loop(first, last, step))
    requires LastHit(first, last, step) + step > MAX_INT
    ensures x in Walk(first, last, step) && x < 0
  {
    hide LastHit, LoopEnds, Walk;
    LastHitWithin(first, last, step);
    x := WrapAdd(first, step);
    WalkOn(first, last, step);
  }

  lemma LastHitWithin(first: int, last: int, step: int)
    requires first <= last && step >= 1
    ensures first <= LastHit(first, last, step) <= last
    ensures last - first < step ==> LastHit(first, last, step) == first
  {
    assert 0 <= (last - first) % step <= last - first by {
      if last - first < step {
        RemainderUnique(last - first, step, 0, last - first);
      }
    }
  }

  /** A written part is read as the loop of its term. */
  lemma PartMeaning(p: string, min: int, max: int, t: Term)
    requires Limits(min, max) && Writes(p, t) && Within(t, min, max)
    ensures TrimmedEffect(p, min, max) == Loop(Low(t.base, min), High(t, max), if t.step.By? then t.step.k else 1)
    ensures LoopEnds(TrimmedEffect(p, min, max))
    ensures min <= Low(t.base, min) <= High(t, max) <= max
  {
    ReadTerm(p, t);
    ReadBase(if t.step.By? then Cut(p, '/').0 else p, t.base);
    if t.step.By? {
      assert Numeral(Cut(p, '/').1, t.step.k);
    }
    EndsSoon(Low(t.base, min), High(t, max), if t.step.By? then t.step.k else 1);
  }

  /** What is known of each part of an accepted field. */
  lemma AcceptedPart(field: string, min: int, max: int, n: nat) returns (t: Term)
    requires Limits(min, max) && ValidField(field, min, max) && n < |Split(field, ',')|
    ensures Writes(TrimSpace(Split(field, ',')[n]), t) && Within(t, min, max)
    ensures Effects(field, min, max)[n] == Loop(Low(t.base, min), High(t, max), if t.step.By? then t.step.k else 1)
    ensures LoopEnds(Effects(field, min, max)[n])
    ensures min <= Low(t.base, min) <= High(t, max) <= max
  {
    var p := Split(field, ',')[n];
    t := TermOf(TrimSpace(p), min, max);
    PartMeaning(TrimSpace(p), min, max, t);
  }

  lemma AcceptedFieldEnds(field: string, min: int, max: int)
    requires Limits(min, max) && ValidField(field, min, max)
    ensures FieldEnds(field, min, max)
  {
    var effects := Effects(field, min, max);
    forall e | e in effects ensures LoopEnds(e) {
      var n :| 0 <= n < |effects| && effects[n] == e;
      var t := AcceptedPart(field, min, max, n);
    }
  }

  /** The set a field denotes: the union over its parts, each read by the grammar. */
  ghost predicate FieldDenotes(field: string, min: int, max: int, x: int) {
    exists p, t :: p in Split(field, ',') && Writes(TrimSpace(p), t) && Within(t, min, max) && Denotes(t, min, max, x)
  }

  lemma {:induction false} CollectedMember(effects: seq<Effect>, x: int)
    requires AllEnd(effects)
    ensures x in Collected(effects) <==> exists e :: e in effects && x in EffectSet(e)
  {
    if effects != [] {
      var front, e := effects[..|effects| - 1], effects[|effects| - 1];
      CollectedMember(front, x);
      assert effects == front + [e];
    }
  }

  predicate FieldFits(field: string, min: int, max: int) {
    forall e :: e in Effects(field, min, max) ==> StepFits(e)
  }

  lemma TermVisits(t: Term, min: int, max: int, x: int)
    requires Limits(min, max) && min <= Low(t.base, min) <= High(t, max) <= max
    requires t.step.By? ==> 1 <= t.step.k <= MAX_INT
    requires LoopEnds(Loop(Low(t.base, min), High(t, max), if t.step.By? then t.step.k else 1))
    requires StepFits(Loop(Low(t.base, min), High(t, max), if t.step.By? then t.step.k else 1))
    ensures x in Walk(Low(t.base, min), High(t, max), if t.step.By? then t.step.k else 1) <==> Denotes(t, min, max, x)
  {
    var k := if t.step.By? then t.step.k else 1;
    WalkVisits(Low(t.base, min), High(t, max), k, x);
    if k == 1 { RemainderUnique(x - Low(t.base, min), 1, x - Low(t.base, min), 0); }
  }

  lemma CollectedIsDenoted(field: string, min: int, max: int, x: int)
    requires ValidField(field, min, max) && FieldEnds(field, min, max) && FieldFits(field, min, max)
    requires x in Collected(Effects(field, min, max))
    ensures FieldDenotes(field, min, max, x)
  {
    var parts, effects := Split(field, ','), Effects(field, min, max);
    CollectedMember(effects, x);
    var e :| e in effects && x in EffectSet(e);
    var n :| 0 <= n < |effects| && effects[n] == e;
    var t := AcceptedPart(field, min, max, n);
    TermVisits(t, min, max, x);
    assert parts[n] in parts;
  }

  lemma DenotedIsCollected(field: string, min: int, max: int, x: int)
    requires ValidField(field, min, max) && FieldEnds(field, min, max) && FieldFits(field, min, max)
    requires FieldDenotes(field, min, max, x)
    ensures x in Collected(Effects(field, min, max))
  {
    var parts, effects := Split(field, ','), Effects(field, min, max);
    var p, t :| p in parts && Writes(TrimSpace(p), t) && Within(t, min, max) && Denotes(t, min, max, x);
    var n :| 0 <= n < |parts| && parts[n] == p;
    PartMeaning(TrimSpace(p), min, max, t);
    assert effects[n] in effects;
    TermVisits(t, min, max, x);
    CollectedMember(effects, x);
  }

  lemma DenotedWithin(field: string, min: int, max: int, x: int)
    requires Limits(min, max) && FieldDenotes(field, min, max, x)
    ensures min <= x <= max
  {
    var p, t :| p in Split(field, ',') && Writes(TrimSpace(p), t) && Within(t, min, max) && Denotes(t, min, max, x);
    PartMeaning(TrimSpace(p), min, max, t);
  }

  /** An accepted field is never empty, so the fall-back to every value is never taken. */
  lemma AcceptedIsNonEmpty(field: string, min: int, max: int)
    requires ValidField(field, min, max) && FieldEnds(field, min, max)
    ensures Collected(Effects(field, min, max)) != {}
  {
    var t := AcceptedPart(field, min, max, 0);
    var e := Effects(field, min, max)[0];
    CollectedMember(Effects(field, min, max), e.first);
    assert e.first in EffectSet(e);
  }

  /** A step that overflows puts a value into the set that the field does not denote. */
  lemma Misread(field: string, min: int, max: int) returns (x: int)
    requires ValidField(field, min, max) && FieldEnds(field, min, max) && !FieldFits(field, min, max)
    ensures x in Collected(Effects(field, min, max)) && !FieldDenotes(field, min, max, x)
  {
    hide Split, TrimSpace, Writes, Within, ValidField, PartEffect, Atoi, FieldDenotes;
    var effects := Effects(field, min, max);
    var e :| e in effects && !StepFits(e);
    var n :| 0 <= n < |effects| && effects[n] == e;
    var t := AcceptedPart(field, min, max, n);
    x := WalkOverflows(e.first, e.last, e.step);
    CollectedMember(effects, x);
    assert x in EffectSet(e);
    if FieldDenotes(field, min, max, x) { DenotedWithin(field, min, max, x); }
  }

  /**
   For every accepted field, the set `parseField` builds is the set the field denotes if and only if no
   step carries its loop past the largest int.
   */
  lemma ParsedExactly(field: string, min: int, max: int)
    requires Limits(min, max) && ValidField(field, min, max)
    ensures FieldEnds(field, min, max)
    ensures (forall x :: x in ParsedSet(field, min, max) <==> FieldDenotes(field, min, max, x)) <==> FieldFits(field, min, max)
  {
    AcceptedFieldEnds(field, min, max);
    AcceptedIsNonEmpty(field, min, max);
    if FieldFits(field, min, max) {
      forall x ensures x in ParsedSet(field, min, max) <==> FieldDenotes(field, min, max, x) {
        if x in ParsedSet(field, min, max) { CollectedIsDenoted(field, min, max, x); }
        if FieldDenotes(field, min, max, x) { DenotedIsCollected(field, min, max, x); }
      }
    } else {
      var x := Misread(field, min, max);
    }
  }

  lemma FiveMoreDigits(s: string, t: string)
    requires AllDigits(s) && AllDigits(t) && |t| == 5
    ensures AllDigits(s + t)
    ensures Decimal(s + t) == 100000 * Decimal(s) + 10000 * DigitValue(t[0]) + 1000 * DigitValue(t[1])
                              + 100 * DigitValue(t[2]) + 10 * DigitValue(t[3]) + DigitValue(t[4])
  {
    OneMoreDigit(s, t[0]);
    OneMoreDigit(s + [t[0]], t[1]);
    OneMoreDigit(s + [t[0]] + [t[1]], t[2]);
    OneMoreDigit(s + [t[0]] + [t[1]] + [t[2]], t[3]);
    OneMoreDigit(s + [t[0]] + [t[1]] + [t[2]] + [t[3]], t[4]);
    assert s + t == s + [t[0]] + [t[1]] + [t[2]] + [t[3]] + [t[4]];
  }

  // The digits of the largest int.
  const LARGEST: string := "92233" + "72036" + "85477" + "5807"

  lemma LargestIntReads()
    ensures Numeral(LARGEST, MAX_INT)
  {
    FifteenDigits();
    hide AllDigits, Decimal;
    var c := "92233" + "72036" + "85477";
    OneMoreDigit(c, '5');
    OneMoreDigit(c + ['5'], '8');
    OneMoreDigit(c + ['5'] + ['8'], '0');
    OneMoreDigit(c + ['5'] + ['8'] + ['0'], '7');
    assert LARGEST == c + ['5'] + ['8'] + ['0'] + ['7'];
    UnsignedNumeral(LARGEST);
  }

  lemma FifteenDigits()
    ensures var c := "92233" + "72036" + "85477"; AllDigits(c) && Decimal(c) == 922337203685477
  {
    assert AllDigits("") && Decimal("") == 0;
    assert AllDigits("92233") && AllDigits("72036") && AllDigits("85477");
    hide AllDigits, Decimal;
    FiveMoreDigits("", "92233");
    assert "" + "92233" == "92233";
    FiveMoreDigits("92233", "72036");
    FiveMoreDigits("92233" + "72036", "85477");
  }

  lemma UnsignedNumeral(s: string)
    requires s != "" && AllDigits(s) && Decimal(s) <= MAX_INT
    ensures Numeral(s, Decimal(s))
  {
    assert IsDigit(s[0]);
    assert Unsigned(s) == s;
  }

  /** What is accepted of a field that is one part without white space, and what its set holds. */
  lemma OnePart(field: string, t: Term, e: Effect)
    requires ',' !in field && field != "" && !IsSpace(field[0]) && !IsSpace(field[|field| - 1])
    requires Writes(field, t) && Within(t, 0, 59)
    requires e == Loop(Low(t.base, 0), High(t, 59), if t.step.By? then t.step.k else 1)
    ensures ValidField(field, 0, 59) && FieldEnds(field, 0, 59) && LoopEnds(e)
    ensures forall x :: x in EffectSet(e) ==> x in ParsedSet(field, 0, 59)
    ensures forall x :: FieldDenotes(field, 0, 59, x) ==> e.first <= x <= e.last
  {
    hide Walk, LoopEnds, Writes, Within, TrimmedEffect, ValidTrimmed;
    TrimSpaceIdentity(field);
    WrittenIsValid(field, t, 0, 59);
    assert Split(field, ',') == [field];
    AcceptedFieldEnds(field, 0, 59);
    PartMeaning(field, 0, 59, t);
    var effects := Effects(field, 0, 59);
    assert effects == [e];
    forall x | x in EffectSet(e) ensures x in ParsedSet(field, 0, 59) {
      CollectedMember(effects, x);
    }
    forall x | FieldDenotes(field, 0, 59, x) ensures e.first <= x <= e.last {
      var u :| Writes(field, u) && Within(u, 0, 59) && Denotes(u, 0, 59, x);
      PartMeaning(field, 0, 59, u);
    }
  }

  lemma FiftyNine()
    ensures Numeral("59", 59)
  {
    OneMoreDigit("", '5');
    OneMoreDigit("5", '9');
    assert "5" + ['9'] == "59";
    UnsignedNumeral("59");
  }

  lemma StepWritten(p: string, x: string, y: string, v: int, k: int)
    requires Joined(p, x, '/', y) && WritesBase(x, Value(v)) && Numeral(y, k) && k > 0
    ensures Writes(p, Term(Value(v), By(k)))
  {
  }

  /** The minute field `59/9223372036854775807` is accepted, and is read as minutes that include 57. */
  lemma OverflowExample(field: string)
    requires field == "59/" + LARGEST
    ensures ValidField(field, 0, 59) && FieldEnds(field, 0, 59)
    ensures 57 in ParsedSet(field, 0, 59) && !FieldDenotes(field, 0, 59, 57)
  {
    var k := LARGEST;
    LargestIntReads();
    FiftyNine();
    StepWritten(field, "59", k, 59, MAX_INT);
    assert ',' !in field;
    assert field[|field| - 1] == '7';
    var e := Loop(59, 59, MAX_INT);
    hide Writes, FieldDenotes, ValidField, LoopEnds;
    OnePart(field, Term(Value(59), By(MAX_INT)), e);
    WrapsTo57();
  }

  lemma WrapsTo57()
    requires LoopEnds(Loop(59, 59, MAX_INT))
    ensures 57 in EffectSet(Loop(59, 59, MAX_INT))
  {
    NextIteration(59, 59, MAX_INT);
    NextIteration(57 - MAX_INT, 59, MAX_INT);
    assert 57 in Walk(57 - MAX_INT, 59, MAX_INT);
  }
}
