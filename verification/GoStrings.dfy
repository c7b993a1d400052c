/**
 The parts of Go's `strings` and `strconv` packages that the modelled files call, on `seq<char>`.
 Go indexes bytes; every character these functions look for is a single byte, so only lengths differ.
 */
module GoStrings {

  // The white space of `unicode.IsSpace`.
  predicate IsSpace(c: char) {
    || '\t' <= c <= '\r' || c == ' ' || c == '\U{85}' || c == '\U{A0}' || c == '\U{1680}'
    || '\U{2000}' <= c <= '\U{200A}' || c == '\U{2028}' || c == '\U{2029}' || c == '\U{202F}'
    || c == '\U{205F}' || c == '\U{3000}'
  }

  /** The white space that is ASCII; every printing character of ASCII is none. */
  lemma AsciiSpaces(c: char)
    requires c <= '~'
    ensures IsSpace(c) <==> c in ['\t', '\n', '\U{b}', '\U{c}', '\r', ' ']
  {
  }

  /** `strings.TrimRight` with the set of characters to cut given as a predicate. */
  function TrimRight(s: string, cut: char -> bool): (r: string)
    ensures r <= s
    ensures forall i :: |r| <= i < |s| ==> cut(s[i])
    ensures r != [] ==> !cut(r[|r| - 1])
  {
    if s != [] && cut(s[|s| - 1]) then TrimRight(s[..|s| - 1], cut) else s
  }

  function TrimLeft(s: string): (r: string)
    ensures |r| <= |s| && r == s[|s| - |r|..]
    ensures forall i :: 0 <= i < |s| - |r| ==> IsSpace(s[i])
    ensures r != [] ==> !IsSpace(r[0])
  {
    if s != [] && IsSpace(s[0]) then TrimLeft(s[1..]) else s
  }

  function TrimSpace(s: string): (r: string)
    ensures r != [] ==> !IsSpace(r[0]) && !IsSpace(r[|r| - 1])
  {
    TrimRight(TrimLeft(s), IsSpace)
  }

  lemma TrimSpaceIdentity(s: string)
    requires s != [] ==> !IsSpace(s[0]) && !IsSpace(s[|s| - 1])
    ensures TrimSpace(s) == s
  {
  }

  predicate AllSpace(s: string) { forall k :: 0 <= k < |s| ==> IsSpace(s[k]) }

  /** Only white space is cut off, on both sides. */
  lemma TrimSpaceMeans(s: string) returns (i: nat, j: nat)
    ensures i <= j <= |s| && TrimSpace(s) == s[i..j] && AllSpace(s[..i]) && AllSpace(s[j..])
  {
    hide IsSpace, TrimLeft, TrimRight;
    var t := TrimLeft(s);
    i := |s| - |t|;
    assert AllSpace(s[..i]);
    j := RightCut(t);
    assert s[i..][..j] == s[i..i + j] && s[i..][j..] == s[i + j..];
    j := i + j;
  }

  lemma RightCut(t: string) returns (j: nat)
    ensures j <= |t| && TrimRight(t, IsSpace) == t[..j] && AllSpace(t[j..])
  {
    hide IsSpace, TrimRight;
    j := |TrimRight(t, IsSpace)|;
    forall k | 0 <= k < |t[j..]| ensures IsSpace(t[j..][k]) {
      assert t[j..][k] == t[j + k];
    }
  }

  /** The index of the last occurrence of `c`, or -1: `strings.LastIndex`. */
  function LastIndex(s: string, c: char): (i: int)
    ensures -1 <= i < |s|
    ensures i >= 0 ==> s[i] == c
    ensures forall j :: i < j < |s| ==> s[j] != c
  {
    if s == [] then -1
    else if s[|s| - 1] == c then |s| - 1
    else LastIndex(s[..|s| - 1], c)
  }

  function Index(s: string, c: char): (i: nat)
    requires c in s
    ensures i < |s| && s[i] == c && c !in s[..i]
  {
    if s[0] == c then 0 else
      assert s == [s[0]] + s[1..];
      Index(s[1..], c) + 1
  }

  /** `strings.SplitN(s, c, 2)` when `c` occurs in `s`: the text before its first occurrence, and after it. */
  function Cut(s: string, c: char): (r: (string, string))
    requires c in s
    ensures s == r.0 + [c] + r.1
    ensures c !in r.0
  {
    var i := Index(s, c);
    (s[..i], s[i + 1..])
  }

  lemma CutUnique(s: string, c: char, a: string, b: string)
    requires s == a + [c] + b && c !in a
    ensures c in s && Cut(s, c) == (a, b)
  {
    assert s[|a|] == c;
    var i := Index(s, c);
    assert forall k :: 0 <= k < |a| ==> s[k] == a[k];
    assert forall k :: 0 <= k < i ==> s[k] == s[..i][k];
    assert s[..i] == a && s[i + 1..] == b;
  }

  /** `strings.Split` on a single character. */
  function Split(s: string, c: char): (r: seq<string>)
    ensures r != []
    ensures forall p :: p in r ==> c !in p
    decreases |s|
  {
    if c in s then
      var (a, b) := Cut(s, c);
      [a] + Split(b, c)
    else [s]
  }

  /** `strings.Join` with a separator text. */
  function Join(parts: seq<string>, sep: string): string {
    if parts == [] then ""
    else if |parts| == 1 then parts[0]
    else parts[0] + sep + Join(parts[1..], sep)
  }

  /** Splitting undoes joining. */
  lemma {:induction false} SplitJoin(parts: seq<string>, c: char)
    requires parts != []
    requires forall p :: p in parts ==> c !in p
    ensures Split(Join(parts, [c]), c) == parts
  {
    if |parts| > 1 {
      SplitJoin(parts[1..], c);
      CutUnique(Join(parts, [c]), c, parts[0], Join(parts[1..], [c]));
    }
  }

  predicate Contains(s: string, t: string) {
    |t| <= |s| && (s[..|t|] == t || Contains(s[1..], t))
  }

  /** `t` stands in `s` from place `i` on. */
  predicate Stands(s: string, t: string, i: int) { 0 <= i <= |s| - |t| && s[i..i + |t|] == t }

  ghost predicate Occurs(s: string, t: string) { exists i :: Stands(s, t, i) }

  lemma {:induction false} ContainsMeans(s: string, t: string)
    ensures Contains(s, t) <==> Occurs(s, t)
    decreases |s|
  {
    if |t| <= |s| {
      assert Stands(s, t, 0) <==> s[..|t|] == t;
      if |t| < |s| {
        ContainsMeans(s[1..], t);
        forall i ensures Stands(s[1..], t, i) <==> i >= 0 && Stands(s, t, i + 1) {
          assert 0 <= i <= |s| - 1 - |t| ==> s[1..][i..i + |t|] == s[i + 1..i + 1 + |t|];
        }
        if i :| Stands(s, t, i) {
          assert i > 0 ==> Stands(s[1..], t, i - 1);
        }
        if i :| Stands(s[1..], t, i) {
          assert Stands(s, t, i + 1);
        }
      } else {
        ContainsNothing(t, s);
      }
    }
  }

  lemma ContainsNothing(t: string, s: string)
    requires |t| == |s|
    ensures Contains(s, t) <==> s == t
  {
  }

  /** `strings.Fields`: the maximal runs of characters that are not white space. */
  function Fields(s: string): seq<string>
    decreases |s|
  {
    var t := TrimLeft(s);
    if t == [] then [] else
      var n := WordLength(t);
      [t[..n]] + Fields(t[n..])
  }

  function WordLength(s: string): (n: nat)
    ensures n <= |s|
    ensures n == 0 ==> s == [] || IsSpace(s[0])
  {
    if s == [] || IsSpace(s[0]) then 0 else 1 + WordLength(s[1..])
  }

  predicate Word(s: string) { s != "" && forall c :: c in s ==> !IsSpace(c) }

  predicate Gap(s: string) { forall c :: c in s ==> c in [' ', '\t', '\n', '\r'] }

  /** The words with a gap in front of each and one behind the last. */
  function Laid(words: seq<string>, gaps: seq<string>): string
    requires |gaps| == |words| + 1
  {
    if words == [] then gaps[0] else gaps[0] + (words[0] + Laid(words[1..], gaps[1..]))
  }

  /** Words separated by any runs of white space are the fields. */
  lemma {:induction false} FieldsOfWords(words: seq<string>, gaps: seq<string>)
    requires |gaps| == |words| + 1
    requires (forall i :: 0 <= i < |words| ==> Word(words[i])) && (forall i :: 0 <= i < |gaps| ==> Gap(gaps[i]))
    requires forall i :: 0 < i < |words| ==> gaps[i] != ""
    ensures Fields(Laid(words, gaps)) == words
    decreases |words|
  {
    hide Fields, Word, Gap;
    if words == [] {
      NoField(gaps[0]);
    } else {
      LaidBegins(words[1..], gaps[1..]);
      OneField(gaps[0], words[0], Laid(words[1..], gaps[1..]));
      FieldsOfWords(words[1..], gaps[1..]);
      assert words == [words[0]] + words[1..];
    }
  }

  lemma NoField(g: string)
    requires Gap(g)
    ensures Fields(g) == []
  {
    hide IsSpace;
    GapTrimmed(g, "");
    assert g + "" == g;
  }

  lemma OneField(g: string, w: string, rest: string)
    requires Gap(g) && Word(w) && (rest == "" || IsSpace(rest[0]))
    ensures Fields(g + (w + rest)) == [w] + Fields(rest)
  {
    hide IsSpace;
    GapTrimmed(g, w + rest);
    assert w[0] in w;
    assert TrimLeft(w + rest) == w + rest;
    WordEnds(w, rest);
    hide TrimLeft, WordLength, Gap;
    assert (w + rest)[..|w|] == w && (w + rest)[|w|..] == rest;
  }

  lemma LaidBegins(words: seq<string>, gaps: seq<string>)
    requires |gaps| == |words| + 1 && Gap(gaps[0]) && (words != [] ==> gaps[0] != "")
    ensures Laid(words, gaps) == "" || IsSpace(Laid(words, gaps)[0])
  {
    if gaps[0] != "" {
      assert gaps[0][0] in gaps[0];
      AsciiSpaces(gaps[0][0]);
      assert Laid(words, gaps)[0] == gaps[0][0];
    }
  }

  lemma {:induction false} GapTrimmed(g: string, s: string)
    requires Gap(g)
    ensures TrimLeft(g + s) == TrimLeft(s)
    decreases |g|
  {
    hide IsSpace;
    if g == "" {
      assert g + s == s;
    } else {
      assert g[0] in g;
      AsciiSpaces(g[0]);
      assert (g + s)[1..] == g[1..] + s;
      GapTrimmed(g[1..], s);
    }
  }

  /** `TrimSpace` takes away the white space around a text. */
  lemma TrimSpaceAround(a: string, m: string, b: string)
    requires Gap(a) && Gap(b) && (m != "" ==> !IsSpace(m[0]) && !IsSpace(m[|m| - 1]))
    ensures m != "" ==> TrimSpace(a + (m + b)) == m
  {
    hide IsSpace;
    if m != "" {
      GapTrimmed(a, m + b);
      assert TrimLeft(m + b) == m + b;
      RightTrimmed(m, b);
    }
  }

  lemma {:induction false} RightTrimmed(m: string, b: string)
    requires Gap(b) && m != "" && !IsSpace(m[|m| - 1])
    ensures TrimRight(m + b, IsSpace) == m
    decreases |b|
  {
    hide IsSpace;
    if b == "" {
      assert m + b == m;
    } else {
      var n := |b| - 1;
      assert b[n] in b;
      AsciiSpaces(b[n]);
      assert (m + b)[..|m + b| - 1] == m + b[..n];
      RightTrimmed(m, b[..n]);
    }
  }

  lemma {:induction false} WordEnds(w: string, rest: string)
    requires forall c :: c in w ==> !IsSpace(c)
    requires rest == "" || IsSpace(rest[0])
    ensures WordLength(w + rest) == |w|
    decreases |w|
  {
    hide IsSpace;
    if w == "" {
      assert w + rest == rest;
    } else {
      assert (w + rest)[1..] == w[1..] + rest;
      assert w[0] in w;
      WordEnds(w[1..], rest);
    }
  }

  // `strconv.Atoi` with 64-bit ints: an optional sign and at least one decimal digit. A value that
  // does not fit is an error that still carries the nearest int.

  const MAX_INT: int := 0x7FFF_FFFF_FFFF_FFFF
  const MIN_INT: int := -MAX_INT - 1

  /** What is left of a result in a 64-bit signed integer. */
  function Wrapped(x: int): (r: int)
    ensures MIN_INT <= r <= MAX_INT
    ensures r == x <==> MIN_INT <= x <= MAX_INT
  {
    (x - MIN_INT) % 0x1_0000_0000_0000_0000 + MIN_INT
  }

  /** Only whole turns of 64 bits are lost. */
  lemma WrappedTurns(x: int) returns (turns: int)
    ensures x == Wrapped(x) + turns * 0x1_0000_0000_0000_0000
  {
    turns := (x - MIN_INT) / 0x1_0000_0000_0000_0000;
  }

  datatype Number = Number(value: int, ok: bool)

  predicate IsDigit(c: char) { '0' <= c <= '9' }

  function DigitValue(c: char): nat
    requires IsDigit(c)
  {
    c as int - '0' as int
  }

  function Decimal(s: string): nat
    requires AllDigits(s)
  {
    if s == [] then 0 else 10 * Decimal(s[..|s| - 1]) + DigitValue(s[|s| - 1])
  }

  predicate AllDigits(s: string) {
    forall i :: 0 <= i < |s| ==> IsDigit(s[i])
  }

  function Unsigned(s: string): string {
    if s != [] && (s[0] == '+' || s[0] == '-') then s[1..] else s
  }

  function Clamped(v: int): (n: Number)
    ensures MIN_INT <= n.value <= MAX_INT
  {
    if v > MAX_INT then Number(MAX_INT, false)
    else if v < MIN_INT then Number(MIN_INT, false)
    else Number(v, true)
  }

  function Atoi(s: string): (n: Number)
    ensures MIN_INT <= n.value <= MAX_INT
  {
    var digits := Unsigned(s);
    if digits == [] || !AllDigits(digits) then Number(0, false)
    else
      var d: int := Decimal(digits);
      Clamped(if s[0] == '-' then -d else d)
  }

  /** Decimal notation. */
  function Written(n: nat): string {
    if n < 10 then ["0123456789"[n]] else Written(n / 10) + ["0123456789"[n % 10]]
  }

  lemma OneMoreDigit(s: string, c: char)
    requires AllDigits(s) && IsDigit(c)
    ensures AllDigits(s + [c]) && Decimal(s + [c]) == 10 * Decimal(s) + DigitValue(c)
  {
    assert (s + [c])[..|s|] == s;
  }

  lemma {:induction false} WrittenReads(n: nat)
    ensures Written(n) != "" && AllDigits(Written(n)) && Decimal(Written(n)) == n
  {
    var c := "0123456789"[n % 10];
    assert IsDigit(c) && DigitValue(c) == n % 10;
    if n < 10 {
      OneMoreDigit("", c);
      assert "" + [c] == [c];
    } else {
      WrittenReads(n / 10);
      OneMoreDigit(Written(n / 10), c);
    }
  }

  /** A number in decimal notation, signed or not, is read as itself if 64 bits hold it, and is refused otherwise. */
  lemma AtoiReads(n: int)
    requires n >= 0
    ensures Atoi(Written(n)) == Atoi("+" + Written(n)) == if n <= MAX_INT then Number(n, true) else Number(MAX_INT, false)
    ensures Atoi("-" + Written(n)) == if -n >= MIN_INT then Number(-n, true) else Number(MIN_INT, false)
  {
    hide Written, AllDigits, Decimal;
    WrittenReads(n);
    var s := Written(n);
    assert ("+" + s)[1..] == s && ("-" + s)[1..] == s;
    assert IsDigit(s[0]) by { FirstDigit(s); }
  }

  lemma FirstDigit(s: string)
    requires s != "" && AllDigits(s)
    ensures IsDigit(s[0])
  {
  }

  /** Nothing else is read: behind an optional sign there are digits, at least one. */
  lemma AtoiRefuses(s: string)
    requires Atoi(s).ok
    ensures var d := if s != "" && s[0] in "+-" then s[1..] else s; d != "" && forall i :: 0 <= i < |d| ==> '0' <= d[i] <= '9'
  {
    hide Decimal;
  }
}
