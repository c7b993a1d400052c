/**
 When `repairTruncatedJSON` of brain/plan.go turns the beginning of a JSON text of RFC 8259 into a JSON text.
 The grammar of sections 2 to 7 of that document is given as a reader of characters with a stack of open brackets.
 */
module JsonText {
  import opened GoStrings
  import opened JsonRepair

  datatype StringPart = Plain | Backslash | Hex(left: nat)

  datatype NumberPart = Minus | Zero | Digits | Point | Fraction | Exp | ExpSign | ExpDigits

  /** What may come next. */
  datatype Mode =
    | Value                                  // a value
    | FirstValue                             // a value, or the end of the array
    | FirstKey                               // a name, or the end of the object
    | Key                                    // a name
    | Colon
    | After                                  // what follows a value
    | InString(key: bool, part: StringPart)
    | InLiteral(rest: string)
    | InNumber(digits: NumberPart)
    | Failed

  datatype Reader = Reader(stack: seq<char>, mode: Mode)

  const BEGIN := Reader([], Value)

  function Top(stack: seq<char>): char { if stack == [] then ' ' else stack[|stack| - 1] }

  function Popped(stack: seq<char>): seq<char>
    requires stack != []
  {
    stack[..|stack| - 1]
  }

  predicate IsHex(c: char) { IsDigit(c) || 'a' <= c <= 'f' || 'A' <= c <= 'F' }

  predicate IsExp(c: char) { c == 'e' || c == 'E' }

  /** The first character of a value. */
  function Begin(stack: seq<char>, c: char): Reader {
    if c == '{' then Reader(stack + [c], FirstKey)
    else if c == '[' then Reader(stack + [c], FirstValue)
    else Reader(stack,
                if c == '"' then InString(false, Plain)
                else if c == 't' then InLiteral("rue")
                else if c == 'f' then InLiteral("alse")
                else if c == 'n' then InLiteral("ull")
                else if c == '-' then InNumber(Minus)
                else if c == '0' then InNumber(Zero)
                else if IsDigit(c) then InNumber(Digits)
                else Failed)
  }

  /** A character behind a value. */
  function Follow(stack: seq<char>, c: char): Reader {
    if Blank(c) then Reader(stack, After)
    else if c == ',' && stack != [] then Reader(stack, if Top(stack) == '{' then Key else Value)
    else if stack != [] && c == Closing(Top(stack)) then Reader(Popped(stack), After)
    else Reader(stack, Failed)
  }

  function ReadString(key: bool, part: StringPart, c: char): Mode {
    match part
    case Plain =>
      if c == '"' then (if key then Colon else After)
      else if c == '\\' then InString(key, Backslash)
      else if c < ' ' then Failed
      else InString(key, Plain)
    case Backslash =>
      if c in ['"', '\\', '/', 'b', 'f', 'n', 'r', 't'] then InString(key, Plain)
      else if c == 'u' then InString(key, Hex(4))
      else Failed
    case Hex(left) =>
      if !IsHex(c) then Failed
      else if left <= 1 then InString(key, Plain)
      else InString(key, Hex(left - 1))
  }

  predicate Complete(d: NumberPart) { d in {Zero, Digits, Fraction, ExpDigits} }

  /** The number goes on with this character; `Failed` if it does not. */
  function ReadNumber(d: NumberPart, c: char): Mode {
    match d
    case Minus => if c == '0' then InNumber(Zero) else if IsDigit(c) then InNumber(Digits) else Failed
    case Zero => if c == '.' then InNumber(Point) else if IsExp(c) then InNumber(Exp) else Failed
    case Digits =>
      if IsDigit(c) then InNumber(Digits) else if c == '.' then InNumber(Point)
      else if IsExp(c) then InNumber(Exp) else Failed
    case Point => if IsDigit(c) then InNumber(Fraction) else Failed
    case Fraction => if IsDigit(c) then InNumber(Fraction) else if IsExp(c) then InNumber(Exp) else Failed
    case Exp => if (c == '+' || c == '-') then InNumber(ExpSign) else if IsDigit(c) then InNumber(ExpDigits) else Failed
    case ExpSign => if IsDigit(c) then InNumber(ExpDigits) else Failed
    case ExpDigits => if IsDigit(c) then InNumber(ExpDigits) else Failed
  }

  function Read(r: Reader, c: char): Reader {
    match r.mode
    case Value => if Blank(c) then r else Begin(r.stack, c)
    case FirstValue =>
      if Blank(c) then r else if c == ']' && r.stack != [] then Reader(Popped(r.stack), After) else Begin(r.stack, c)
    case FirstKey =>
      if Blank(c) then r
      else if c == '}' && r.stack != [] then Reader(Popped(r.stack), After)
      else r.(mode := if c == '"' then InString(true, Plain) else Failed)
    case Key => if Blank(c) then r else r.(mode := if c == '"' then InString(true, Plain) else Failed)
    case Colon => if Blank(c) then r else r.(mode := if c == ':' then Value else Failed)
    case After => Follow(r.stack, c)
    case InString(key, part) => r.(mode := ReadString(key, part, c))
    case InLiteral(rest) =>
      r.(mode := if rest == "" || c != rest[0] then Failed else if |rest| == 1 then After else InLiteral(rest[1..]))
    case InNumber(d) =>
      if Complete(d) && ReadNumber(d, c).Failed? then Follow(r.stack, c) else r.(mode := ReadNumber(d, c))
    case Failed => r
  }

  function ReadAll(r: Reader, s: string): Reader {
    if s == [] then r else Read(ReadAll(r, s[..|s| - 1]), s[|s| - 1])
  }

  /** A value ends here. */
  predicate Done(m: Mode) { m.After? || (m.InNumber? && Complete(m.digits)) }

  predicate IsJson(s: string) { ReadAll(BEGIN, s).stack == [] && Done(ReadAll(BEGIN, s).mode) }

  /** The brackets may be closed here. */
  predicate Ready(m: Mode) { Done(m) || m.FirstValue? || m.FirstKey? }

  /** Behind a name, or within a word or number. */
  predicate Unfinished(m: Mode) { m.Colon? || m.InLiteral? || (m.InNumber? && !Complete(m.digits)) }

  predicate Viable(s: string) { !ReadAll(BEGIN, s).mode.Failed? }

  // The reader, the scanner and the closing brackets.

  lemma {:induction false} ReadAppend(r: Reader, a: string, b: string)
    ensures ReadAll(r, a + b) == ReadAll(ReadAll(r, a), b)
    decreases |b|
  {
    hide Read;
    if b == [] {
      assert a + b == a;
    } else {
      var f := b[..|b| - 1];
      assert (a + b)[..|a + b| - 1] == a + f;
      ReadAppend(r, a, f);
    }
  }

  lemma {:induction false} StaysFailed(r: Reader, s: string)
    requires r.mode.Failed?
    ensures ReadAll(r, s) == r
    decreases |s|
  {
    if s != [] { StaysFailed(r, s[..|s| - 1]); }
  }

  lemma ViablePrefix(s: string, k: string)
    requires Viable(s) && k <= s
    ensures Viable(k)
  {
    hide Read;
    assert s == k + s[|k|..];
    ReadAppend(BEGIN, k, s[|k|..]);
    if ReadAll(BEGIN, k).mode.Failed? {
      StaysFailed(ReadAll(BEGIN, k), s[|k|..]);
    }
  }

  /** What the mode says about the stack. */
  predicate Fits(r: Reader) {
    && (r.mode.FirstValue? ==> Top(r.stack) == '[')
    && (r.mode.FirstKey? || r.mode.Key? || r.mode.Colon? || (r.mode.InString? && r.mode.key) ==> Top(r.stack) == '{')
    && (r.mode.InLiteral? ==> forall c :: c in r.mode.rest ==> 'a' <= c <= 'z')
    && forall c :: c in r.stack ==> IsOpen(c)
  }

  predicate Agrees(r: Reader, st: State) {
    r.mode.Failed? || (
      && r.stack == st.stack
      && st.inString == r.mode.InString?
      && st.escaped == (r.mode.InString? && r.mode.part.Backslash?))
  }

  predicate Outside(stack: seq<char>, st: State) {
    st == State(stack, false, false) && forall c :: c in stack ==> IsOpen(c)
  }

  lemma BeginAgrees(stack: seq<char>, st: State, c: char)
    requires Outside(stack, st)
    ensures Fits(Begin(stack, c)) && Agrees(Begin(stack, c), Step(st, c))
  {
  }

  lemma PopAgrees(stack: seq<char>, st: State, c: char)
    requires Outside(stack, st) && stack != [] && c == Closing(Top(stack))
    ensures Fits(Reader(Popped(stack), After)) && Agrees(Reader(Popped(stack), After), Step(st, c))
  {
    assert Top(stack) in stack;
  }

  lemma FollowAgrees(stack: seq<char>, st: State, c: char)
    requires Outside(stack, st)
    ensures Fits(Follow(stack, c)) && Agrees(Follow(stack, c), Step(st, c))
  {
    if stack != [] {
      assert Top(stack) in stack;
      if c == Closing(Top(stack)) { PopAgrees(stack, st, c); }
    }
  }

  lemma StringAgrees(r: Reader, st: State, c: char)
    requires Fits(r) && Agrees(r, st) && r.mode.InString?
    ensures Fits(Read(r, c)) && Agrees(Read(r, c), Step(st, c))
  {
  }

  lemma LiteralAgrees(r: Reader, st: State, c: char)
    requires Fits(r) && Agrees(r, st) && r.mode.InLiteral?
    ensures Fits(Read(r, c)) && Agrees(Read(r, c), Step(st, c))
  {
    var rest := r.mode.rest;
    if rest != "" && c == rest[0] {
      assert c in rest;
      assert forall x :: x in rest[1..] ==> x in rest;
      assert Step(st, c) == st;
    }
  }

  lemma NumberAgrees(r: Reader, st: State, c: char)
    requires Fits(r) && Agrees(r, st) && r.mode.InNumber?
    ensures Fits(Read(r, c)) && Agrees(Read(r, c), Step(st, c))
  {
    FollowAgrees(r.stack, st, c);
    hide Follow;
    if !ReadNumber(r.mode.digits, c).Failed? {
      assert !Structural(c) && ReadNumber(r.mode.digits, c).InNumber?;
      hide ReadNumber;
    }
  }

  lemma OneRead(r: Reader, st: State, c: char)
    requires Fits(r) && Agrees(r, st)
    ensures Fits(Read(r, c)) && Agrees(Read(r, c), Step(st, c))
  {
    if r.mode.InString? {
      StringAgrees(r, st, c);
    } else if r.mode.InLiteral? {
      LiteralAgrees(r, st, c);
    } else if r.mode.InNumber? {
      NumberAgrees(r, st, c);
    } else if !r.mode.Failed? {
      BeginAgrees(r.stack, st, c);
      FollowAgrees(r.stack, st, c);
      if r.stack != [] && c == Closing(Top(r.stack)) { PopAgrees(r.stack, st, c); }
      hide Begin, Follow;
    }
  }

  lemma {:induction false} ReaderAgrees(s: string)
    ensures Fits(ReadAll(BEGIN, s)) && Agrees(ReadAll(BEGIN, s), Run(START, s))
    decreases |s|
  {
    if s != [] {
      ReaderAgrees(s[..|s| - 1]);
      OneRead(ReadAll(BEGIN, s[..|s| - 1]), Run(START, s[..|s| - 1]), s[|s| - 1]);
    }
  }

  /** A text that starts with a bracket is finished only behind its last one. */
  lemma {:induction false} BracketedEnd(s: string)
    requires StartsOpen(s) && Viable(s) && ReadAll(BEGIN, s).stack == []
    ensures ReadAll(BEGIN, s).mode.After?
    decreases |s|
  {
    var f := s[..|s| - 1];
    assert s == f + [s[|f|]];
    if f != [] {
      ViablePrefix(s, f);
      ReaderAgrees(f);
      if ReadAll(BEGIN, f).stack == [] {
        BracketedEnd(f);
      }
    }
  }

  lemma {:induction false} ClosingRead(stack: seq<char>)
    requires forall c :: c in stack ==> IsOpen(c)
    ensures ReadAll(Reader(stack, After), Closers(stack)) == Reader([], After)
    decreases |stack|
  {
    if stack != [] {
      ClosingRead(Popped(stack));
      FirstCloser(Reader(stack, After));
      InnermostClosed(Reader(stack, After));
      hide Read;
    }
  }

  /** The first of the closing brackets. */
  lemma FirstCloser(r: Reader)
    requires r.stack != []
    ensures var c, rest := Closing(Top(r.stack)), Popped(r.stack);
            ReadAll(r, Closers(r.stack)) == ReadAll(Read(r, c), Closers(rest))
  {
    hide Read;
    var c, rest := Closing(Top(r.stack)), Popped(r.stack);
    ReadAppend(r, [c], Closers(rest));
    assert [c][..0] == [];
  }

  /** Where the brackets may be closed, the innermost one is. */
  lemma InnermostClosed(r: Reader)
    requires r.stack != [] && Fits(r) && !r.mode.InString? && !r.mode.Failed?
    ensures var c := Closing(Top(r.stack));
            if Ready(r.mode) then Read(r, c) == Reader(Popped(r.stack), After) else Read(r, c).mode.Failed?
  {
    assert Top(r.stack) in r.stack;
    if r.mode.InLiteral? && r.mode.rest != "" {
      assert r.mode.rest[0] in r.mode.rest;
    }
  }

  /** Closing the open brackets gives a finished text exactly where they may be closed. */
  lemma ClosedRead(r: Reader)
    requires r.stack != [] && Fits(r) && !r.mode.InString? && !r.mode.Failed?
    ensures var e := ReadAll(r, Closers(r.stack)); (e.stack == [] && Done(e.mode)) <==> Ready(r.mode)
  {
    var c, rest := Closing(Top(r.stack)), Popped(r.stack);
    FirstCloser(r);
    InnermostClosed(r);
    hide Read, Closers;
    if Ready(r.mode) {
      ClosingRead(rest);
    } else {
      StaysFailed(Read(r, c), Closers(rest));
    }
  }

  // What stands in front of the cut.

  function ModeOf(s: string): Mode { ReadAll(BEGIN, s).mode }

  /** Outside strings a blank keeps what is expected, or ends a value. */
  lemma BlankRead(r: Reader, c: char)
    requires Fits(r) && Blank(c) && !Read(r, c).mode.Failed? && !Read(r, c).mode.InString?
    ensures Read(r, c).mode == r.mode || (Read(r, c).mode.After? && Done(r.mode))
    ensures !r.mode.InString?
  {
    if r.mode.InLiteral? && r.mode.rest != "" {
      assert r.mode.rest[0] in r.mode.rest;
    }
  }

  /** What is expected behind another character tells which character it was, and where it stood. */
  lemma CharRead(r: Reader, c: char)
    requires Fits(r) && !Blank(c) && !Read(r, c).mode.Failed?
    ensures var m := Read(r, c).mode;
            && (m.Value? ==> (c == ':' && r.mode.Colon?) || (c == ',' && Done(r.mode)))
            && (m.Key? ==> c == ',' && Done(r.mode))
            && (m.FirstKey? ==> c == '{') && (m.FirstValue? ==> c == '[')
            && (m.Colon? ==> c == '"' && r.mode == InString(true, Plain))
            && (Done(m) ==> c != ',' && c != ':')
  {
    if r.mode.InLiteral? && r.mode.rest != "" {
      assert r.mode.rest[0] in r.mode.rest;
    }
  }

  lemma LastRead(s: string)
    requires s != "" && Viable(s)
    ensures Viable(DropLast(s)) && Fits(ReadAll(BEGIN, DropLast(s)))
    ensures ReadAll(BEGIN, s) == Read(ReadAll(BEGIN, DropLast(s)), s[|s| - 1])
  {
    ReaderAgrees(DropLast(s));
  }

  lemma {:induction false} BlanksOff(s: string)
    requires Viable(s) && !ModeOf(s).InString?
    ensures var r := TrimRight(s, Blank);
            Viable(r) && (ModeOf(r) == ModeOf(s) || (ModeOf(s).After? && Done(ModeOf(r))))
    decreases |s|
  {
    hide Read, Fits;
    if s != "" && Blank(s[|s| - 1]) {
      LastRead(s);
      BlankRead(ReadAll(BEGIN, DropLast(s)), s[|s| - 1]);
      BlanksOff(DropLast(s));
    }
  }

  /** Behind a value there is nothing to trim but blanks. */
  lemma {:induction false} DoneOff(s: string)
    requires Done(ModeOf(s))
    ensures Done(ModeOf(TrimRight(s, BlankOrComma)))
    decreases |s|
  {
    hide Read, Fits;
    if s != "" {
      LastRead(s);
      var r, c := ReadAll(BEGIN, DropLast(s)), s[|s| - 1];
      if Blank(c) {
        BlankRead(r, c);
        DoneOff(DropLast(s));
      } else {
        CharRead(r, c);
      }
    }
  }

  /** Where a name may come, trimming goes back to the beginning of the object or to the value before. */
  lemma {:induction false} KeyOff(s: string)
    requires ModeOf(s).Key? || ModeOf(s).FirstKey?
    ensures Ready(ModeOf(TrimRight(s, BlankOrComma)))
    decreases |s|
  {
    hide Read, Fits;
    if s != "" {
      LastRead(s);
      var r, c := ReadAll(BEGIN, DropLast(s)), s[|s| - 1];
      if Blank(c) {
        BlankRead(r, c);
        KeyOff(DropLast(s));
      } else {
        CharRead(r, c);
        if c == ',' {
          DoneOff(DropLast(s));
        }
      }
    }
  }

  predicate OpensString(m: Mode) { m.Value? || m.FirstValue? || m.Key? || m.FirstKey? }

  /** A quote outside strings opens one: a name where names are expected. */
  lemma QuoteOpens(s: string, q: nat)
    requires Viable(s) && q < |s| && s[q] == '"' && !ModeOf(s[..q]).InString?
    ensures Viable(s[..q]) && Viable(s[..q + 1]) && OpensString(ModeOf(s[..q]))
    ensures ModeOf(s[..q + 1]) == InString(ModeOf(s[..q]).Key? || ModeOf(s[..q]).FirstKey?, Plain)
  {
    ViablePrefix(s, s[..q]);
    ViablePrefix(s, s[..q + 1]);
    assert DropLast(s[..q + 1]) == s[..q];
    LastRead(s[..q + 1]);
    var r := ReadAll(BEGIN, s[..q]);
    if r.mode.InLiteral? && r.mode.rest != "" {
      assert r.mode.rest[0] in r.mode.rest;
    }
  }

  lemma StringRead(r: Reader, c: char)
    requires r.mode.InString? && c != '"'
    ensures Read(r, c).mode.Failed? || (Read(r, c).mode.InString? && Read(r, c).mode.key == r.mode.key)
  {
  }

  lemma {:induction false} StaysInString(r: Reader, s: string)
    requires r.mode.InString? && '"' !in s
    ensures ReadAll(r, s).mode.Failed? || (ReadAll(r, s).mode.InString? && ReadAll(r, s).mode.key == r.mode.key)
    decreases |s|
  {
    if s != "" {
      var f, c := s[..|s| - 1], s[|s| - 1];
      assert c in s && forall x :: x in f ==> x in s;
      StaysInString(r, f);
      if !ReadAll(r, f).mode.Failed? {
        StringRead(ReadAll(r, f), c);
        hide Read;
      }
    }
  }

  /** The string that is open at the end of `s` was opened by the last quote, if this is not an escaped one. */
  lemma OpenedAt(s: string)
    requires Viable(s) && ModeOf(s).InString? && LastIndex(s, '"') >= 0 && !EscapedAt(s, LastIndex(s, '"'))
    ensures var q := LastIndex(s, '"');
            && Viable(s[..q]) && OpensString(ModeOf(s[..q]))
            && ModeOf(s).key == (ModeOf(s[..q]).Key? || ModeOf(s[..q]).FirstKey?)
  {
    hide Read, Fits, Step;
    var q := LastIndex(s, '"');
    ReaderAgrees(s);
    CutAtQuote(s);
    ReaderAgrees(s[..q]);
    ViablePrefix(s, s[..q]);
    QuoteOpens(s, q);
    assert s == s[..q + 1] + s[q + 1..];
    ReadAppend(BEGIN, s[..q + 1], s[q + 1..]);
    StaysInString(ReadAll(BEGIN, s[..q + 1]), s[q + 1..]);
  }

  /** In front of an opening quote, without the name of a member whose value it is. */
  lemma KeyGone(u: string)
    requires Viable(u) && ModeOf(u).Value? && EndsWith(u, ':') && !KeyCutEscaped(u)
    ensures Ready(ModeOf(TrimRight(WithoutKey(u), BlankOrComma)))
  {
    hide Read, Fits, Step;
    LastRead(u);
    CharRead(ReadAll(BEGIN, DropLast(u)), ':');
    var w := WithoutColon(u);
    BlanksOff(DropLast(u));
    assert w != "";
    LastRead(w);
    CharRead(ReadAll(BEGIN, DropLast(w)), w[|w| - 1]);
    var x := DropLast(w);
    ReaderAgrees(x);
    CutAtQuote(x);
    var p := LastIndex(x, '"');
    assert w[..p] == x[..p];
    OpenedAt(x);
    KeyOff(x[..p]);
  }

  lemma FrontReady(u: string)
    requires u != "" && Viable(u) && OpensString(ModeOf(u)) && !Blank(u[|u| - 1]) && !KeyCutEscaped(u)
    ensures Ready(ModeOf(TrimRight(WithoutKey(u), BlankOrComma)))
  {
    hide Read, Fits, Step, WithoutKey, KeyCutEscaped;
    LastRead(u);
    var c := u[|u| - 1];
    CharRead(ReadAll(BEGIN, DropLast(u)), c);
    if c == ':' {
      KeyGone(u);
    } else {
      NoColon(u);
      if c == ',' {
        DoneOff(DropLast(u));
      } else {
        TrimNothing(u, BlankOrComma);
      }
    }
  }

  lemma NoColon(u: string)
    requires !EndsWith(u, ':')
    ensures WithoutKey(u) == u
  {
  }

  /** A text that breaks off inside a string is cut where brackets may be closed. */
  lemma StringCutReady(t: string)
    requires StartsOpen(t) && Viable(t) && Run(START, t).stack != [] && Run(START, t).inString && !CutsAtEscape(t)
    ensures Ready(ModeOf(CutText(t, true)))
  {
    hide Read, Fits, Step, WithoutKey, KeyCutEscaped;
    ReaderAgrees(t);
    CutAtQuote(t);
    var q := LastIndex(t, '"');
    OpenedAt(t);
    BlanksOff(t[..q]);
    var u := BeforeValue(t);
    assert t[0] != '"' && !Blank(t[0]);
    assert t[..q][0] == t[0];
    FrontReady(u);
  }

  // White space at the ends.

  lemma {:induction false} LeadingBlanks(p: string)
    requires Viable(p)
    ensures ReadAll(BEGIN, TrimLeft(p)) == ReadAll(BEGIN, p)
    decreases |p|
  {
    if p != "" && IsSpace(p[0]) {
      assert p == [p[0]] + p[1..] && p[..1] == [p[0]] && [p[0]][..0] == [];
      ViablePrefix(p, p[..1]);
      ReadAppend(BEGIN, [p[0]], p[1..]);
      assert ReadAll(BEGIN, [p[0]]) == Read(BEGIN, p[0]) == BEGIN;
      LeadingBlanks(p[1..]);
    }
  }

  lemma TrimmedViable(p: string)
    requires Viable(p)
    ensures Viable(TrimSpace(p))
  {
    LeadingBlanks(p);
    ViablePrefix(TrimLeft(p), TrimSpace(p));
  }

  /** Without blanks, commas and colons at its end, a text that may not be closed ends behind a name or within a word or number. */
  lemma ReadyOrUnfinished(k: string)
    requires Viable(k) && !ModeOf(k).InString? && k != "" && !BlankCommaColon(k[|k| - 1])
    ensures Ready(ModeOf(k)) <==> !Unfinished(ModeOf(k))
  {
    hide Read, Fits;
    LastRead(k);
    CharRead(ReadAll(BEGIN, DropLast(k)), k[|k| - 1]);
  }

  lemma CutWhere(t: string)
    ensures CutsAtEscape(t) ==> Run(START, t).inString
    ensures CutText(t, false) == TrimRight(t, BlankCommaColon)
  {
  }

  /**
   What is repaired from the beginning of a JSON text, if it starts with a bracket, is a JSON text exactly when
   nothing was open; or it broke off inside a string and the cut does not land on an escaped quote; or it broke off
   elsewhere, and without blanks, commas and colons at its end it ends neither behind a name nor within a word or number.
   */
  lemma RepairsToJson(text: string, p: string)
    requires IsJson(text) && p <= text && StartsOpen(TrimSpace(p))
    ensures var t := TrimSpace(p); var st := Run(START, t);
            IsJson(Repair(p)) <==>
              || st.stack == []
              || if st.inString then !CutsAtEscape(t) else !Unfinished(ModeOf(TrimRight(t, BlankCommaColon)))
  {
    hide Read, Fits, Step, CutText, CutsAtEscape, ReadAll, Run, TrimSpace;
    var t := TrimSpace(p);
    ViablePrefix(text, p);
    TrimmedViable(p);
    ReaderAgrees(t);
    if Run(START, t).stack == [] {
      BracketedEnd(t);
    } else {
      ClosedScan(t);
      CutKeepsBrackets(t);
      CutWhere(t);
      ReaderAgrees(Repair(p));
      if !CutsAtEscape(t) {
        var k := CutText(t, Run(START, t).inString);
        ViablePrefix(t, k);
        ReaderAgrees(k);
        ReadAppend(BEGIN, k, Closers(Run(START, k).stack));
        ClosedRead(ReadAll(BEGIN, k));
        if Run(START, t).inString {
          StringCutReady(t);
        } else {
          ReadyOrUnfinished(k);
        }
      }
    }
  }

  lemma ReadFirst(r: Reader, c: char, s: string)
    ensures ReadAll(r, [c] + s) == ReadAll(Read(r, c), s)
  {
    ReadAppend(r, [c], s);
    assert [c][..0] == [];
  }

  /** A member that breaks off behind its colon keeps its name, and is not a JSON text: `{"a":` becomes `{"a"}`. */
  lemma NameLeft(text: string, p: string)
    requires text == ['{', '"', 'a', '"', ':', '1', '}'] && p == ['{', '"', 'a', '"', ':']
    ensures IsJson(text) && p <= text && Repair(p) == ['{', '"', 'a', '"', '}'] && !IsJson(Repair(p))
  {
    hide Run, ModeOf, IsJson, Repair, TrimRight, TrimSpace;
    NameText(text);
    NameCut(p);
    assert text[..5] == p;
    StaysBroken(text, p);
  }

  lemma StaysBroken(text: string, p: string)
    requires IsJson(text) && p <= text && TrimSpace(p) == p && StartsOpen(p)
    requires Run(START, p).stack != [] && !Run(START, p).inString && Unfinished(ModeOf(TrimRight(p, BlankCommaColon)))
    ensures !IsJson(Repair(p))
  {
    hide Run, ModeOf, IsJson, Repair, TrimRight, TrimSpace, CutsAtEscape;
    RepairsToJson(text, p);
  }

  lemma NameText(text: string)
    requires text == ['{', '"', 'a', '"', ':', '1', '}']
    ensures IsJson(text)
  {
    hide Read;
    var name, rest: string := ['{', '"', 'a', '"'], [':', '1', '}'];
    NameRead();
    assert text == name + rest;
    ReadAppend(BEGIN, name, rest);
    MemberRead();
  }

  lemma MemberRead()
    ensures ReadAll(Reader(['{'], Colon), [':', '1', '}']) == Reader([], After)
  {
    var none: string := [];
    assert [':', '1', '}'] == [':'] + (['1'] + (['}'] + none));
    ReadFirst(Reader(['{'], Colon), ':', ['1'] + (['}'] + none));
    ReadFirst(Reader(['{'], Value), '1', ['}'] + none);
    ReadFirst(Reader(['{'], InNumber(Digits)), '}', none);
  }

  lemma ColonRead(p: string)
    requires p == ['{', '"', 'a', '"', ':']
    ensures Run(START, p).stack == ['{'] && !Run(START, p).inString
    ensures var name := ['{', '"', 'a', '"']; ModeOf(name) == Colon && Run(START, name).stack == ['{']
  {
    var name: string := ['{', '"', 'a', '"'];
    NameRead();
    assert p == name + [':'] && [':'][..0] == [];
    ReadAppend(BEGIN, name, [':']);
    assert ReadAll(BEGIN, p) == Reader(['{'], Value);
    hide Read, Step, Run, ReadAll, Fits;
    ReaderAgrees(p);
    ReaderAgrees(name);
  }

  lemma NothingAround(p: string)
    requires p == ['{', '"', 'a', '"', ':']
    ensures TrimSpace(p) == p
  {
    hide TrimSpace;
    TrimSpaceIdentity(p);
  }

  lemma NameTrimmed(p: string)
    requires p == ['{', '"', 'a', '"', ':']
    ensures TrimRight(p, BlankCommaColon) == ['{', '"', 'a', '"']
  {
    var name: string := ['{', '"', 'a', '"'];
    assert p[..|p| - 1] == name;
    assert TrimRight(p, BlankCommaColon) == TrimRight(name, BlankCommaColon);
    hide TrimRight;
    TrimNothing(name, BlankCommaColon);
  }

  lemma NameCut(p: string)
    requires p == ['{', '"', 'a', '"', ':']
    ensures TrimSpace(p) == p && Run(START, p).stack == ['{'] && !Run(START, p).inString
    ensures var name := ['{', '"', 'a', '"'];
            TrimRight(p, BlankCommaColon) == name && ModeOf(name) == Colon && Repair(p) == name + ['}']
  {
    hide Run, ReadAll, TrimSpace, TrimRight;
    ColonRead(p);
    NothingAround(p);
    NameTrimmed(p);
    assert ['{'][..0] == [] && Closers(['{']) == ['}'] + Closers([]);
  }

  lemma NameRead()
    ensures ReadAll(BEGIN, ['{', '"', 'a', '"']) == Reader(['{'], Colon)
  {
    var none: string := [];
    assert ['{', '"', 'a', '"'] == ['{'] + (['"'] + (['a'] + (['"'] + none)));
    ReadFirst(BEGIN, '{', ['"'] + (['a'] + (['"'] + none)));
    assert [] + ['{'] == ['{'];
    ReadFirst(Reader(['{'], FirstKey), '"', ['a'] + (['"'] + none));
    ReadFirst(Reader(['{'], InString(true, Plain)), 'a', ['"'] + none);
    ReadFirst(Reader(['{'], InString(true, Plain)), '"', none);
  }
}
