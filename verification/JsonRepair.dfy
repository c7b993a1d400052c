/**
 `repairTruncatedJSON` of brain/plan.go: text cut off by an output limit gets its brackets closed.
 The scanner with its stack is compared with a grammar of balanced brackets and quoted strings, in
 which a backslash inside a string takes the next character with it (section 7 of RFC 8259).
 */
module JsonRepair {
  import opened GoStrings

  // The grammar.

  datatype Body = End | Ordinary(c: char, rest: Body) | Escape(c: char, rest: Body) {
    predicate WellFormed() {
      match this
      case End => true
      case Ordinary(c, rest) => c != '"' && c != '\\' && rest.WellFormed()
      case Escape(_, rest) => rest.WellFormed()
    }

    function Render(): string {
      match this
      case End => ""
      case Ordinary(c, rest) => [c] + rest.Render()
      case Escape(c, rest) => ['\\', c] + rest.Render()
    }
  }

  datatype Doc =
    | Empty
    | Char(c: char, rest: Doc)
    | Quoted(body: Body, rest: Doc)
    | Nested(open: char, inner: Doc, rest: Doc)
  {
    predicate WellFormed() {
      match this
      case Empty => true
      case Char(c, rest) => !Structural(c) && rest.WellFormed()
      case Quoted(body, rest) => body.WellFormed() && rest.WellFormed()
      case Nested(open, inner, rest) => IsOpen(open) && inner.WellFormed() && rest.WellFormed()
    }

    function Render(): string {
      match this
      case Empty => ""
      case Char(c, rest) => [c] + rest.Render()
      case Quoted(body, rest) => "\"" + body.Render() + "\"" + rest.Render()
      case Nested(open, inner, rest) => [open] + inner.Render() + [Closing(open)] + rest.Render()
    }
  }

  predicate IsOpen(c: char) { c == '{' || c == '[' }

  predicate Structural(c: char) { c == '"' || c == '{' || c == '[' || c == '}' || c == ']' }

  function Closing(open: char): char { if open == '{' then '}' else ']' }

  /** A single bracketed text. */
  ghost predicate Balanced(s: string) {
    exists o, d: Doc :: IsOpen(o) && d.WellFormed() && s == Nested(o, d, Empty).Render()
  }

  // The scanner.

  datatype State = State(stack: seq<char>, inString: bool, escaped: bool)

  const START: State := State([], false, false)

  function PopIf(stack: seq<char>, open: char): seq<char> {
    if stack != [] && stack[|stack| - 1] == open then stack[..|stack| - 1] else stack
  }

  function Step(st: State, c: char): State {
    if st.escaped then st.(escaped := false)
    else if c == '\\' && st.inString then st.(escaped := true)
    else if c == '"' then st.(inString := !st.inString)
    else if st.inString then st
    else if IsOpen(c) then st.(stack := st.stack + [c])
    else if c == '}' then st.(stack := PopIf(st.stack, '{'))
    else if c == ']' then st.(stack := PopIf(st.stack, '['))
    else st
  }

  function Run(st: State, s: string): State {
    if s == [] then st else Step(Run(st, s[..|s| - 1]), s[|s| - 1])
  }

  function Closers(stack: seq<char>): string {
    if stack == [] then "" else [Closing(stack[|stack| - 1])] + Closers(stack[..|stack| - 1])
  }

  // Where the text is cut before the brackets are closed.

  predicate Blank(c: char) { c == ' ' || c == '\t' || c == '\n' || c == '\r' }
  predicate BlankOrComma(c: char) { Blank(c) || c == ',' }
  predicate BlankCommaColon(c: char) { Blank(c) || c == ',' || c == ':' }

  predicate EndsWith(s: string, c: char) { s != [] && s[|s| - 1] == c }

  function DropLast(s: string): string
    requires s != []
  {
    s[..|s| - 1]
  }

  /** The text in front of the string that is still open. */
  function BeforeValue(s: string): string {
    TrimRight(s[..if LastIndex(s, '"') > 0 then LastIndex(s, '"') else 0], Blank)
  }

  /** With the colon of a dangling key dropped. */
  function WithoutColon(s: string): string
    requires EndsWith(s, ':')
  {
    TrimRight(DropLast(s), Blank)
  }

  function WithoutKey(s: string): string {
    if EndsWith(s, ':') then
      var w := WithoutColon(s);
      if EndsWith(w, '"') && LastIndex(DropLast(w), '"') >= 0 then w[..LastIndex(DropLast(w), '"')] else w
    else s
  }

  function CutText(s: string, inString: bool): string {
    if !inString then TrimRight(s, BlankCommaColon)
    else if LastIndex(s, '"') > 0 then TrimRight(WithoutKey(BeforeValue(s)), BlankOrComma)
    else s
  }

  predicate StartsOpen(s: string) { s != [] && IsOpen(s[0]) }

  function RepairTrimmed(t: string): string {
    var st := Run(START, t);
    if !StartsOpen(t) || st.stack == [] then t else
      var k := CutText(t, st.inString);
      k + Closers(Run(START, k).stack)
  }

  function Repair(s: string): string { RepairTrimmed(TrimSpace(s)) }

  // The code: two scans with a stack, a cut between them, and a loop that writes the closers.

  method ScanBrackets(s: string) returns (stack: seq<char>, inString: bool)
    ensures stack == Run(START, s).stack && inString == Run(START, s).inString
  {
    stack, inString := [], false;
    var escaped := false;
    for i := 0 to |s|
      invariant State(stack, inString, escaped) == Run(START, s[..i])
    {
      assert s[..i + 1][..i] == s[..i];
      var c := s[i];
      if escaped {
        escaped := false;
      } else if c == '\\' && inString {
        escaped := true;
      } else if c == '"' {
        inString := !inString;
      } else if !inString {
        match c
        case '{' => stack := stack + [c];
        case '[' => stack := stack + [c];
        case '}' => if |stack| > 0 && stack[|stack| - 1] == '{' { stack := stack[..|stack| - 1]; }
        case ']' => if |stack| > 0 && stack[|stack| - 1] == '[' { stack := stack[..|stack| - 1]; }
        case _ =>
      }
    }
    assert s[..|s|] == s;
  }

  method CutDangling(text: string, inString: bool) returns (s: string)
    ensures s == CutText(text, inString)
  {
    hide LastIndex, TrimRight;
    s := text;
    if inString {
      var lastQuote := LastIndex(s, '"');
      if lastQuote > 0 {
        s := TrimRight(s[..lastQuote], Blank);
        if EndsWith(s, ':') {
          s := TrimRight(s[..|s| - 1], Blank);
          if EndsWith(s, '"') {
            var prevQuote := LastIndex(s[..|s| - 1], '"');
            if prevQuote >= 0 {
              s := s[..prevQuote];
            }
          }
        }
        s := TrimRight(s, BlankOrComma);
      }
    } else {
      s := TrimRight(s, BlankCommaColon);
    }
  }

  method AppendClosers(text: string, stack: seq<char>) returns (s: string)
    ensures s == text + Closers(stack)
  {
    s := text;
    var i := |stack|;
    assert stack[..i] == stack;
    while i > 0
      invariant 0 <= i <= |stack|
      invariant s + Closers(stack[..i]) == text + Closers(stack)
    {
      assert stack[..i][..i - 1] == stack[..i - 1];
      i := i - 1;
      if stack[i] == '{' { s := s + "}"; } else { s := s + "]"; }
    }
  }

  method RepairTruncatedJson(text: string) returns (s: string)
    ensures s == Repair(text)
  {
    s := TrimSpace(text);
    if |s| == 0 || (s[0] != '{' && s[0] != '[') {
      return;
    }
    var stack, inString := ScanBrackets(s);
    if |stack| == 0 {
      return;
    }
    s := CutDangling(s, inString);
    stack, inString := ScanBrackets(s);
    s := AppendClosers(s, stack);
  }

  // Facts about the scanner.

  lemma {:induction false} RunAppend(st: State, a: string, b: string)
    ensures Run(st, a + b) == Run(Run(st, a), b)
  {
    if b == [] {
      assert a + b == a;
    } else {
      var f := b[..|b| - 1];
      assert (a + b)[..|a + b| - 1] == a + f;
      RunAppend(st, a, f);
    }
  }

  lemma Step1(st: State, c: char, s: string)
    ensures Run(st, [c] + s) == Run(Step(st, c), s)
  {
    RunAppend(st, [c], s);
    assert [c][..0] == [];
  }

  lemma RunSplit(st: State, s: string, i: nat)
    requires i <= |s|
    ensures Run(st, s) == Run(Run(st, s[..i]), s[i..])
  {
    assert s[..i] + s[i..] == s;
    RunAppend(st, s[..i], s[i..]);
  }

  predicate Sane(st: State) {
    && (st.escaped ==> st.inString)
    && forall i :: 0 <= i < |st.stack| ==> IsOpen(st.stack[i])
  }

  lemma {:induction false} RunSane(st: State, s: string)
    requires Sane(st)
    ensures Sane(Run(st, s))
    ensures Run(st, s).escaped ==> s == [] || s[|s| - 1] == '\\'
  {
    if s != [] { RunSane(st, s[..|s| - 1]); }
  }

  /** Inside a string, text without quotes leaves everything but the escape as it was. */
  lemma {:induction false} RunInside(st: State, s: string)
    requires st.inString
    requires '"' !in s || (st.escaped && s[0] == '"' && '"' !in s[1..])
    ensures Run(st, s).inString && Run(st, s).stack == st.stack
  {
    if s != [] {
      var f := s[..|s| - 1];
      if f == [] {
      } else {
        assert s[1..][..|f| - 1] == f[1..];
        RunInside(st, f);
        assert s[|s| - 1] == s[1..][|f| - 1];
      }
    }
  }

  /** Outside strings, text without quotes stays outside; without brackets too, it changes nothing. */
  lemma {:induction false} RunOutside(st: State, s: string)
    requires !st.inString && !st.escaped && '"' !in s
    ensures !Run(st, s).inString && !Run(st, s).escaped
    ensures (forall c :: c in s ==> !Structural(c)) ==> Run(st, s) == st
  {
    if s != [] {
      var f, c := s[..|s| - 1], s[|s| - 1];
      assert s == f + [c];
      RunOutside(st, f);
      if forall c :: c in s ==> !Structural(c) {
        assert forall c :: c in f ==> c in s;
        assert c in s;
      }
    }
  }

  lemma {:induction false} RunClosers(st: State)
    requires Sane(st) && !st.inString
    ensures Run(st, Closers(st.stack)) == START
    decreases |st.stack|
  {
    if st.stack != [] {
      var c := Closing(st.stack[|st.stack| - 1]);
      var next := Step(st, c);
      assert next.stack == st.stack[..|st.stack| - 1];
      RunClosers(next);
      RunSplit(st, Closers(st.stack), 1);
      assert Closers(st.stack)[..1] == [c] && [c][..0] == [];
      assert Closers(st.stack)[1..] == Closers(next.stack);
    }
  }

  lemma {:induction false} ClosersPlain(stack: seq<char>)
    ensures |Closers(stack)| == |stack|
    ensures forall c :: c in Closers(stack) ==> c == '}' || c == ']'
  {
    if stack != [] { ClosersPlain(stack[..|stack| - 1]); }
  }

  // What the cut does to the scanner's state.

  predicate EscapedAt(s: string, i: int)
    requires 0 <= i <= |s|
  {
    Run(START, s[..i]).escaped
  }

  /** The cut is made at a quote that the string it stands in has escaped. */
  predicate CutsAtEscape(s: string) {
    var st := Run(START, s);
    && StartsOpen(s) && st.stack != [] && st.inString
    && (|| (LastIndex(s, '"') >= 0 && EscapedAt(s, LastIndex(s, '"')))
        || KeyCutEscaped(BeforeValue(s)))
  }

  predicate KeyCutEscaped(u: string) {
    && EndsWith(u, ':')
    && EndsWith(WithoutColon(u), '"')
    && LastIndex(DropLast(WithoutColon(u)), '"') >= 0
    && EscapedAt(WithoutColon(u), LastIndex(DropLast(WithoutColon(u)), '"'))
  }

  /** Cutting at the last quote of a text that ends inside a string. */
  lemma CutAtQuote(s: string)
    requires Run(START, s).inString
    ensures var q := LastIndex(s, '"');
            && q >= 0
            && Run(START, s[..q]).stack == Run(START, s).stack
            && Run(START, s[..q]).inString == EscapedAt(s, q)
            && (EscapedAt(s, q) ==> q > 0 && s[q - 1] == '\\')
  {
    var q := LastIndex(s, '"');
    if q < 0 { RunOutside(START, s); }
    var st := Run(START, s[..q]);
    RunSane(START, s[..q]);
    RunSplit(START, s, q);
    var tail := s[q..];
    assert tail[0] == '"' && '"' !in tail[1..];
    if st.escaped {
      RunInside(st, tail);
    } else {
      RunSplit(st, tail, 1);
      assert tail[..1][..0] == [];
      var after := Step(st, '"');
      assert Run(st, tail[..1]) == after;
      if st.inString {
        RunOutside(after, tail[1..]);
      } else {
        RunInside(after, tail[1..]);
      }
    }
  }

  /** Trimming outside strings does not change the state. */
  lemma TrimOutside(s: string, cut: char -> bool)
    requires !Run(START, s).inString
    requires forall c :: cut(c) ==> !Structural(c)
    ensures Run(START, TrimRight(s, cut)) == Run(START, s)
  {
    var r := TrimRight(s, cut);
    var tail := s[|r|..];
    RunSplit(START, s, |r|);
    assert s[..|r|] == r;
    assert forall c :: c in tail ==> !Structural(c);
    RunSane(START, r);
    if Run(START, r).inString {
      RunInside(Run(START, r), tail);
    } else {
      RunOutside(Run(START, r), tail);
    }
  }

  lemma TrimNothing(s: string, cut: char -> bool)
    requires s != [] && !cut(s[|s| - 1])
    ensures TrimRight(s, cut) == s
  {
  }

  /** Dropping a key in front of the cut: its closing quote, and everything from its opening quote on. */
  lemma CutKey(u: string)
    requires !Run(START, u).inString
    ensures WithoutKey(u) <= u
    ensures Run(START, WithoutKey(u)).stack == Run(START, u).stack
    ensures Run(START, WithoutKey(u)).inString == KeyCutEscaped(u)
    ensures KeyCutEscaped(u) ==> EndsWith(WithoutKey(u), '\\')
  {
    if EndsWith(u, ':') {
      var v := DropLast(u);
      assert u == v + [':'];
      RunSane(START, v);
      assert Run(START, v).escaped == false;
      assert Run(START, v) == Run(START, u);
      TrimOutside(v, Blank);
      var w := WithoutColon(u);
      if EndsWith(w, '"') {
        var x := DropLast(w);
        assert Run(START, w) == Step(Run(START, x), '"');
        RunSane(START, x);
        assert Run(START, x).inString && !Run(START, x).escaped;
        CutAtQuote(x);
        var p := LastIndex(x, '"');
        assert x[..p] == w[..p];
        assert w <= u && w[..p] <= u;
      }
    }
  }

  lemma CutAtEscapedQuote(s: string)
    requires StartsOpen(s) && Run(START, s).inString
    requires LastIndex(s, '"') >= 0 && EscapedAt(s, LastIndex(s, '"'))
    ensures var q := LastIndex(s, '"'); q > 0 && CutText(s, true) == s[..q]
  {
    CutAtQuote(s);
    var q := LastIndex(s, '"');
    var b := s[..q];
    TrimNothing(b, Blank);
    assert BeforeValue(s) == b && !EndsWith(b, ':');
    TrimNothing(b, BlankOrComma);
  }

  /** The cut in front of a text `u` that ends outside strings. */
  lemma CutInFront(u: string)
    requires !Run(START, u).inString
    ensures var k := TrimRight(WithoutKey(u), BlankOrComma);
            && k <= u
            && Run(START, k).stack == Run(START, u).stack
            && Run(START, k).inString == KeyCutEscaped(u)
  {
    CutKey(u);
    hide WithoutKey;
    if KeyCutEscaped(u) {
      TrimNothing(WithoutKey(u), BlankOrComma);
    } else {
      TrimOutside(WithoutKey(u), BlankOrComma);
    }
  }

  lemma CutInsideString(s: string)
    requires StartsOpen(s) && Run(START, s).stack != [] && Run(START, s).inString
    ensures var k := CutText(s, true);
            && k <= s
            && Run(START, k).stack == Run(START, s).stack
            && Run(START, k).inString == CutsAtEscape(s)
            && |k| <= LastIndex(s, '"')
  {
    CutAtQuote(s);
    hide WithoutKey, KeyCutEscaped;
    var q := LastIndex(s, '"');
    assert s[0] != '"';
    if EscapedAt(s, q) {
      CutAtEscapedQuote(s);
    } else {
      TrimOutside(s[..q], Blank);
      CutInFront(BeforeValue(s));
    }
  }

  /** The cut keeps the open brackets; it ends outside every string unless it lands on an escaped quote. */
  lemma CutKeepsBrackets(s: string)
    requires StartsOpen(s) && Run(START, s).stack != []
    ensures var k := CutText(s, Run(START, s).inString);
            && k <= s
            && Run(START, k).stack == Run(START, s).stack
            && Run(START, k).inString == CutsAtEscape(s)
            && (Run(START, s).inString ==> |k| <= LastIndex(s, '"'))
  {
    if Run(START, s).inString {
      CutInsideString(s);
    } else {
      TrimOutside(s, BlankCommaColon);
    }
  }

  // Identity, shape of the result, idempotence.

  /** A repaired text is a prefix of the trimmed input followed by closing brackets only. */
  lemma RepairShape(s: string)
    ensures || Repair(s) == TrimSpace(s)
            || exists k :: k <= TrimSpace(s) && Repair(s) == k + Closers(Run(START, k).stack)
  {
    var t := TrimSpace(s);
    if StartsOpen(t) && Run(START, t).stack != [] {
      CutKeepsBrackets(t);
      var k := CutText(t, Run(START, t).inString);
      assert k <= t && Repair(s) == k + Closers(Run(START, k).stack);
    }
  }

  lemma ClosersScan(k: string)
    ensures var st := Run(START, k); var r := k + Closers(st.stack);
            && Run(START, r).inString == st.inString
            && Run(START, r).stack == if st.inString then st.stack else []
  {
    var st := Run(START, k);
    var tail := Closers(st.stack);
    ClosersPlain(st.stack);
    RunSane(START, k);
    RunAppend(START, k, tail);
    if st.inString { RunInside(st, tail); } else { RunClosers(st); }
  }

  lemma ClosersTrimmed(k: string, stack: seq<char>)
    requires StartsOpen(k) && stack != []
    ensures var r := k + Closers(stack);
            TrimSpace(r) == r && StartsOpen(r) && k < r && LastIndex(r, '"') < |k|
  {
    var tail := Closers(stack);
    ClosersPlain(stack);
    var r := k + tail;
    assert r[|r| - 1] == tail[|tail| - 1] && r[0] == k[0];
    TrimSpaceIdentity(r);
    assert forall i :: |k| <= i < |r| ==> r[i] == tail[i - |k|] && r[i] in tail;
  }

  /** How a text that was cut and closed scans. */
  lemma ClosedScan(t: string)
    requires StartsOpen(t) && Run(START, t).stack != []
    ensures var r := RepairTrimmed(t); var k := CutText(t, Run(START, t).inString);
            && TrimSpace(r) == r && StartsOpen(r)
            && k < r && LastIndex(r, '"') < |k|
            && Run(START, r).inString == CutsAtEscape(t)
            && Run(START, r).stack == if CutsAtEscape(t) then Run(START, t).stack else []
  {
    CutKeepsBrackets(t);
    hide Step, CutText, CutsAtEscape;
    var k := CutText(t, Run(START, t).inString);
    ClosersScan(k);
    assert k != [] && k[0] == t[0];
    ClosersTrimmed(k, Run(START, k).stack);
  }

  /** Repairing twice is repairing once, exactly when the first cut does not land on an escaped quote. */
  lemma RepairIdempotent(s: string)
    ensures Repair(Repair(s)) == Repair(s) <==> !CutsAtEscape(TrimSpace(s))
  {
    var t := TrimSpace(s);
    TrimSpaceIdentity(t);
    if StartsOpen(t) && Run(START, t).stack != [] {
      ClosedScan(t);
      var r := Repair(s);
      if CutsAtEscape(t) {
        CutKeepsBrackets(t);
        CutKeepsBrackets(r);
        var k2 := CutText(r, true);
        ClosersPlain(Run(START, t).stack);
        assert |Repair(r)| < |r|;
      }
    }
  }

  // Soundness for cut-off documents.

  lemma {:induction false} RunBody(b: Body, st: State)
    requires b.WellFormed() && st.inString && !st.escaped
    ensures Run(st, b.Render()) == st
  {
    match b
    case End =>
    case Ordinary(c, rest) =>
      Step1(st, c, rest.Render());
      RunBody(rest, st);
    case Escape(c, rest) =>
      assert b.Render() == ['\\'] + ([c] + rest.Render());
      Step1(st, '\\', [c] + rest.Render());
      Step1(st.(escaped := true), c, rest.Render());
      RunBody(rest, st);
  }

  /** No prefix of a string's body leaves the string. */
  lemma {:induction false} BodyPrefix(b: Body, k: string, st: State)
    requires b.WellFormed() && st.inString && !st.escaped && k <= b.Render()
    ensures Run(st, k).inString && Run(st, k).stack == st.stack
  {
    if k != [] {
      match b
      case End =>
      case Ordinary(c, rest) =>
        assert k == [c] + k[1..];
        Step1(st, c, k[1..]);
        BodyPrefix(rest, k[1..], st);
      case Escape(c, rest) =>
        var esc := st.(escaped := true);
        assert k == ['\\'] + k[1..];
        Step1(st, '\\', k[1..]);
        if |k| > 1 {
          assert k[1..] == [c] + k[2..];
          Step1(esc, c, k[2..]);
          BodyPrefix(rest, k[2..], st);
        }
    }
  }

  lemma RunQuoted(b: Body, st: State, s: string)
    requires b.WellFormed() && !st.inString && !st.escaped
    ensures Run(st, "\"" + b.Render() + "\"" + s) == Run(st, s)
  {
    var inner := st.(inString := true);
    assert "\"" + b.Render() + "\"" + s == ['"'] + (b.Render() + (['"'] + s));
    Step1(st, '"', b.Render() + (['"'] + s));
    RunAppend(inner, b.Render(), ['"'] + s);
    RunBody(b, inner);
    Step1(inner, '"', s);
  }

  lemma RunClosing(st: State, open: char, s: string)
    requires !st.inString && !st.escaped && IsOpen(open)
    ensures Run(st.(stack := st.stack + [open]), [Closing(open)] + s) == Run(st, s)
  {
    var deep := st.(stack := st.stack + [open]);
    StepClosing(st, open);
    hide Step;
    Step1(deep, Closing(open), s);
  }

  lemma StepClosing(st: State, open: char)
    requires !st.inString && !st.escaped && IsOpen(open)
    ensures Step(st.(stack := st.stack + [open]), Closing(open)) == st
  {
    assert (st.stack + [open])[..|st.stack|] == st.stack;
  }

  lemma {:induction false} RunNested(open: char, inner: Doc, st: State, s: string)
    requires IsOpen(open) && inner.WellFormed() && !st.inString && !st.escaped
    ensures Run(st, [open] + inner.Render() + [Closing(open)] + s) == Run(st, s)
    decreases inner, 1
  {
    var deep := st.(stack := st.stack + [open]);
    var tail := [Closing(open)] + s;
    assert [open] + inner.Render() + [Closing(open)] + s == [open] + (inner.Render() + tail);
    Step1(st, open, inner.Render() + tail);
    RunAppend(deep, inner.Render(), tail);
    RunDoc(inner, deep);
    RunClosing(st, open, s);
  }

  /** A document of the grammar leaves the scanner as it found it. */
  lemma {:induction false} RunDoc(d: Doc, st: State)
    requires d.WellFormed() && !st.inString && !st.escaped
    ensures Run(st, d.Render()) == st
    decreases d, 0
  {
    match d
    case Empty =>
    case Char(c, rest) =>
      Step1(st, c, rest.Render());
      RunDoc(rest, st);
    case Quoted(body, rest) =>
      RunQuoted(body, st, rest.Render());
      RunDoc(rest, st);
    case Nested(open, inner, rest) =>
      RunNested(open, inner, st, rest.Render());
      RunDoc(rest, st);
  }

  lemma {:induction false} ClosersOuter(open: char, s: seq<char>)
    ensures Closers([open] + s) == Closers(s) + [Closing(open)]
  {
    if s != [] {
      assert ([open] + s)[..|s|] == [open] + s[..|s| - 1];
      ClosersOuter(open, s[..|s| - 1]);
    } else {
      assert [open] + s == [open] && [open][..0] == [];
    }
  }

  /**
   A prefix of a document that ends outside every string becomes a document once the brackets it has
   opened are closed; a prefix never closes more than it has opened.
   */
  lemma {:induction false} PrefixCompletes(d: Doc, k: string, st: State) returns (pending: seq<char>, e: Doc)
    requires d.WellFormed() && !st.inString && !st.escaped && k <= d.Render()
    ensures Run(st, k).stack == st.stack + pending
    ensures !Run(st, k).inString ==> e.WellFormed() && e.Render() == k + Closers(pending)
    decreases d, 0
  {
    if k == [] {
      return [], Empty;
    }
    match d
    case Empty => pending, e := [], Empty;
    case Char(c, rest) => pending, e := AfterChar(c, rest, k, st);
    case Quoted(body, rest) =>
      hide Run, Step, Closers;
      if |k| >= |body.Render()| + 2 {
        pending, e := AfterQuoted(body, rest, k, st);
      } else {
        WithinQuoted(body, rest, k, st);
        pending, e := [], Empty;
      }
    case Nested(open, inner, rest) =>
      hide Run, Step, Closers;
      var n := |inner.Render()| + 2;
      if |k| >= n {
        pending, e := AfterNested(open, inner, rest, k, st);
      } else {
        pending, e := WithinNested(open, inner, k, st);
      }
  }

  lemma {:induction false} AfterChar(c: char, rest: Doc, k: string, st: State) returns (pending: seq<char>, e: Doc)
    requires !Structural(c) && rest.WellFormed() && !st.inString && !st.escaped
    requires k != [] && k <= Char(c, rest).Render()
    ensures Run(st, k).stack == st.stack + pending
    ensures !Run(st, k).inString ==> e.WellFormed() && e.Render() == k + Closers(pending)
    decreases rest, 1
  {
    hide Run, Closers;
    assert k == [c] + k[1..];
    Step1(st, c, k[1..]);
    pending, e := PrefixCompletes(rest, k[1..], st);
    e := Char(c, e);
  }

  lemma WithinQuoted(body: Body, rest: Doc, k: string, st: State)
    requires body.WellFormed() && !st.inString && !st.escaped
    requires k != [] && k <= Quoted(body, rest).Render() && |k| < |body.Render()| + 2
    ensures Run(st, k).inString && Run(st, k).stack == st.stack + []
  {
    hide Run;
    assert k == ['"'] + k[1..];
    Step1(st, '"', k[1..]);
    assert k[1..] <= body.Render();
    BodyPrefix(body, k[1..], st.(inString := true));
  }

  lemma {:induction false} AfterQuoted(body: Body, rest: Doc, k: string, st: State) returns (pending: seq<char>, e: Doc)
    requires body.WellFormed() && rest.WellFormed() && !st.inString && !st.escaped
    requires k <= Quoted(body, rest).Render() && |k| >= |body.Render()| + 2
    ensures Run(st, k).stack == st.stack + pending
    ensures !Run(st, k).inString ==> e.WellFormed() && e.Render() == k + Closers(pending)
    decreases rest, 1
  {
    hide Run, Step, Closers;
    var head := "\"" + body.Render() + "\"";
    var tail := k[|head|..];
    assert k == head + tail;
    RunQuoted(body, st, tail);
    var f: Doc;
    pending, f := PrefixCompletes(rest, tail, st);
    e := Quoted(body, f);
    assert e.Render() == head + f.Render();
    assert head + (tail + Closers(pending)) == k + Closers(pending);
  }

  lemma {:induction false} AfterNested(open: char, inner: Doc, rest: Doc, k: string, st: State) returns (pending: seq<char>, e: Doc)
    requires IsOpen(open) && inner.WellFormed() && rest.WellFormed() && !st.inString && !st.escaped
    requires k <= Nested(open, inner, rest).Render() && |k| >= |inner.Render()| + 2
    ensures Run(st, k).stack == st.stack + pending
    ensures !Run(st, k).inString ==> e.WellFormed() && e.Render() == k + Closers(pending)
    decreases rest, 1
  {
    hide Run, Step, Closers;
    var head := [open] + inner.Render() + [Closing(open)];
    var tail := k[|head|..];
    assert k == head + tail;
    RunNested(open, inner, st, tail);
    var f: Doc;
    pending, f := PrefixCompletes(rest, tail, st);
    e := Nested(open, inner, f);
    hide Doc.WellFormed;
    assert e.Render() == head + f.Render();
    hide Doc.Render;
    assert head + (tail + Closers(pending)) == k + Closers(pending);
  }

  lemma {:induction false} WithinNested(open: char, inner: Doc, k: string, st: State) returns (pending: seq<char>, e: Doc)
    requires IsOpen(open) && inner.WellFormed() && !st.inString && !st.escaped
    requires k != [] && k[0] == open && k[1..] <= inner.Render()
    ensures Run(st, k).stack == st.stack + pending && pending != []
    ensures !Run(st, k).inString ==> e.WellFormed() && e.Render() == k + Closers(pending)
    ensures e.Nested? && e.open == open && e.rest.Empty?
    decreases inner, 1
  {
    hide Run, Closers;
    var deep := st.(stack := st.stack + [open]);
    assert k == [open] + k[1..];
    Step1(st, open, k[1..]);
    assert Step(st, open) == deep;
    var o, f := PrefixCompletes(inner, k[1..], deep);
    pending, e := [open] + o, Nested(open, f, Empty);
    ClosersOuter(open, o);
    assert st.stack + pending == deep.stack + o;
    SingleBracketed(open, f);
    hide Doc.Render;
    assert [open] + (k[1..] + Closers(o)) + [Closing(open)] == k + Closers(pending);
  }

  /** Prefixes of one bracketed text: closed up they are bracketed texts, and only the whole has nothing open. */
  lemma BracketedPrefix(text: string, k: string)
    requires Balanced(text) && k <= text && k != []
    ensures !Run(START, k).inString ==> Balanced(k + Closers(Run(START, k).stack))
    ensures Run(START, k).stack == [] ==> k == text && !Run(START, k).inString
    ensures StartsOpen(k)
  {
    hide Run, Closers, Step;
    if |k| == |text| {
      assert k == text[..|k|];
      WholeText(text);
    } else {
      var o, d: Doc :| IsOpen(o) && d.WellFormed() && text == Nested(o, d, Empty).Render();
      SingleBracketed(o, d);
      hide Doc.Render;
      assert k[1..] == d.Render()[..|k| - 1];
      var pending, e := WithinNested(o, d, k, START);
      assert [] + pending == pending;
    }
  }

  lemma WholeText(text: string)
    requires Balanced(text)
    ensures Run(START, text) == START && text + Closers([]) == text && StartsOpen(text)
  {
    var o, d: Doc :| IsOpen(o) && d.WellFormed() && text == Nested(o, d, Empty).Render();
    RunDoc(Nested(o, d, Empty), START);
  }

  lemma SingleBracketed(o: char, d: Doc)
    ensures Nested(o, d, Empty).Render() == [o] + d.Render() + [Closing(o)]
  {
    assert Empty.Render() == "";
  }

  lemma TrimPrefix(p: string)
    requires StartsOpen(p)
    ensures TrimSpace(p) <= p && TrimSpace(p) != []
  {
    assert TrimLeft(p) == p;
    assert !IsSpace(p[0]);
  }

  /**
   Every non-empty prefix of a bracketed text is repaired to a bracketed text with all strings closed,
   exactly when the cut does not land on a quote that its string has escaped.
   */
  lemma RepairCompletes(text: string, p: string)
    requires Balanced(text) && p <= text && p != []
    ensures Balanced(Repair(p)) <==> !CutsAtEscape(TrimSpace(p))
  {
    BracketedPrefix(text, p);
    TrimPrefix(p);
    var t := TrimSpace(p);
    BracketedPrefix(text, t);
    if Run(START, t).stack != [] {
      CutKeepsBrackets(t);
      var k := CutText(t, Run(START, t).inString);
      assert k <= text && k != [];
      BracketedPrefix(text, k);
      if CutsAtEscape(t) {
        ClosedScan(t);
        BalancedScansClean(Repair(p));
      }
    }
  }

  lemma BalancedScansClean(s: string)
    ensures Balanced(s) ==> Run(START, s) == START && TrimSpace(s) == s
  {
    if Balanced(s) {
      var o, d: Doc :| IsOpen(o) && d.WellFormed() && s == Nested(o, d, Empty).Render();
      RunDoc(Nested(o, d, Empty), START);
      assert s[|s| - 1] == Closing(o);
      TrimSpaceIdentity(s);
    }
  }

  /** A text that is already balanced is returned unchanged. */
  lemma RepairKeepsBalanced(s: string)
    requires Balanced(s)
    ensures Repair(s) == s
  {
    BalancedScansClean(s);
  }

  /** Only a character behind a backslash can be escaped. */
  lemma EscapedBehindBackslash(s: string, i: nat)
    requires i < |s| && EscapedAt(s, i)
    ensures i > 0 && s[i - 1] == '\\'
  {
    RunSane(START, s[..i]);
  }

  /** Without a backslash in front of a quote the cut never goes wrong. */
  lemma NoEscapedQuotes(s: string)
    requires forall i :: 0 < i < |s| && s[i] == '"' ==> s[i - 1] != '\\'
    ensures !CutsAtEscape(s)
  {
    if CutsAtEscape(s) {
      CutAtQuote(s);
      assert !EscapedAt(s, LastIndex(s, '"'));
      var w := WithoutColon(BeforeValue(s));
      var p := LastIndex(DropLast(w), '"');
      assert w[..p] == s[..p] && s[p] == '"';
      EscapedBehindBackslash(s, p);
    }
  }

  /** Cut off after the escaped quote of `{"\""}`, the text comes back with its string still open. */
  lemma EscapedQuoteExample(text: string, p: string)
    requires text == ['{', '"', '\\', '"', '"', '}'] && p == ['{', '"', '\\', '"']
    ensures Balanced(text) && p <= text && !Balanced(Repair(p))
  {
    var b := Escape('"', End);
    var d := Quoted(b, Empty);
    assert b.Render() == ['\\', '"'];
    assert d.Render() == ['"', '\\', '"', '"'];
    assert Nested('{', d, Empty).Render() == text;
    TrimSpaceIdentity(p);
    var a: string := ['\\'] + [];
    var c: string := ['"'] + a;
    assert [] + ['{'] == ['{'];
    Step1(START, '{', c);
    Step1(State(['{'], false, false), '"', a);
    Step1(State(['{'], true, false), '\\', []);
    assert p[..3] == ['{'] + c;
    assert Run(START, p[..3]) == State(['{'], true, true);
    assert LastIndex(p, '"') == 3;
    RepairCompletes(text, p);
  }
}
