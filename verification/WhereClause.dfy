/**
 `buildWhereClause` of tools/tables.go: structured filters rendered as SQL text with `?` places, and the values
 for the places. What it renders can be read back.
 */
module WhereClause {
  import opened GoStrings
  import opened Wrappers

  /** A filter as it comes from the model; a column or operator that is missing or no text is "". */
  datatype Filter = NotAnObject | Filter(column: string, op: string, value: Option<string>)

  /** A filter as it is meant: the operator in upper case, and a value when the operator takes one. */
  datatype Condition = Condition(column: string, op: string, value: Option<string>)

  datatype Result = Built(clause: string, params: seq<string>) | Refused

  predicate Letter(c: char) { 'a' <= c <= 'z' || 'A' <= c <= 'Z' }

  predicate NameChar(c: char) { Letter(c) || '0' <= c <= '9' || c == '_' }

  predicate ValidColumnName(s: string) {
    s != "" && Letter(s[0]) && forall i :: 0 <= i < |s| ==> NameChar(s[i])
  }

  /** `unicode.ToUpper` as far as it can lead to a letter of an operator: two letters outside ASCII do as well. */
  function Upper(c: char): char {
    if 'a' <= c <= 'z' then c - 'a' + 'A'
    else if c == '\U{131}' then 'I'
    else if c == '\U{17F}' then 'S'
    else c
  }

  function ToUpper(s: string): string { seq(|s|, i requires 0 <= i < |s| => Upper(s[i])) }

  predicate Nullary(op: string) { op == "IS NULL" || op == "IS NOT NULL" }

  predicate AllowedOp(op: string) {
    op in {"=", "!=", "<", ">", "<=", ">=", "LIKE", "NOT LIKE"} || Nullary(op)
  }

  predicate ValidFilter(f: Filter) {
    f.Filter? && ValidColumnName(f.column)
    && var op := ToUpper(TrimSpace(f.op)); AllowedOp(op) && (Nullary(op) || f.value.Some?)
  }

  function Meant(f: Filter): Condition
    requires ValidFilter(f)
  {
    var op := ToUpper(TrimSpace(f.op));
    Condition(f.column, op, if Nullary(op) then None else f.value)
  }

  predicate AllValid(fs: seq<Filter>) { forall i :: 0 <= i < |fs| ==> ValidFilter(fs[i]) }

  function MeantAll(fs: seq<Filter>): (r: seq<Condition>)
    requires AllValid(fs)
    ensures |r| == |fs|
  {
    seq(|fs|, i requires 0 <= i < |fs| => Meant(fs[i]))
  }

  /** The conditions that come out of valid filters. */
  predicate WellFormed(c: Condition) {
    ValidColumnName(c.column) && AllowedOp(c.op) && (Nullary(c.op) <==> c.value.None?)
  }

  predicate AllWellFormed(cs: seq<Condition>) { forall i :: 0 <= i < |cs| ==> WellFormed(cs[i]) }

  // Which filters are valid, spelt out.

  lemma ColumnNames(s: string)
    ensures ValidColumnName(s) <==>
              && s != "" && ('a' <= s[0] <= 'z' || 'A' <= s[0] <= 'Z')
              && forall c :: c in s ==> 'a' <= c <= 'z' || 'A' <= c <= 'Z' || '0' <= c <= '9' || c == '_'
  {
    if ValidColumnName(s) {
      forall c | c in s ensures NameChar(c) {
        var i :| 0 <= i < |s| && s[i] == c;
      }
    } else if s != "" && Letter(s[0]) {
      var i :| 0 <= i < |s| && !NameChar(s[i]);
      assert s[i] in s;
    }
  }

  lemma Operators(op: string)
    ensures AllowedOp(op) <==>
              || op == "=" || op == "!=" || op == "<" || op == ">" || op == "<=" || op == ">=" || op == "LIKE" || op == "NOT LIKE"
              || op == "IS NULL" || op == "IS NOT NULL"
  {
  }

  /** `typed` is the operator with some of its letters in lower case. */
  predicate SpeltAs(typed: string, op: string) {
    && |typed| == |op|
    && forall i :: 0 <= i < |op| ==> typed[i] == op[i] || ('A' <= op[i] <= 'Z' && typed[i] == op[i] - 'A' + 'a')
  }

  /** An operator may be typed in any case and with white space around it. */
  lemma FilterRead(column: string, before: string, typed: string, after: string, op: string, value: Option<string>)
    requires AllowedOp(op) && SpeltAs(typed, op) && Gap(before) && Gap(after)
    ensures var f := Filter(column, before + (typed + after), value);
            var none := op == "IS NULL" || op == "IS NOT NULL";
            && (ValidFilter(f) <==> ValidColumnName(column) && (none || value.Some?))
            && (ValidFilter(f) ==> Meant(f) == Condition(column, op, if none then None else value))
  {
    hide ValidColumnName, TrimSpace;
    assert forall i :: 0 <= i < |op| ==> 'A' <= op[i] <= 'Z' || op[i] in ['=', '!', '<', '>', ' '];
    assert op != "" && op[0] != ' ' && op[|op| - 1] != ' ';
    EndsArePlain(typed, op);
    TrimSpaceAround(before, typed, after);
    UpperCase(typed, op);
    hide AllowedOp, ToUpper;
  }

  lemma EndsArePlain(typed: string, op: string)
    requires SpeltAs(typed, op) && op != "" && op[0] != ' ' && op[|op| - 1] != ' '
    requires forall i :: 0 <= i < |op| ==> 'A' <= op[i] <= 'Z' || op[i] in ['=', '!', '<', '>', ' ']
    ensures !IsSpace(typed[0]) && !IsSpace(typed[|typed| - 1])
  {
    AsciiSpaces(typed[0]);
    AsciiSpaces(typed[|typed| - 1]);
    hide IsSpace;
  }

  lemma UpperCase(typed: string, op: string)
    requires SpeltAs(typed, op)
    requires forall i :: 0 <= i < |op| ==> 'A' <= op[i] <= 'Z' || op[i] in ['=', '!', '<', '>', ' ']
    ensures ToUpper(typed) == op
  {
  }

  // The text and its values.

  function Clause(c: Condition): string {
    if c.value.None? then c.column + " " + c.op else c.column + " " + c.op + " ?"
  }

  function Clauses(cs: seq<Condition>): (r: seq<string>)
    ensures |r| == |cs|
  {
    seq(|cs|, i requires 0 <= i < |cs| => Clause(cs[i]))
  }

  function Params(cs: seq<Condition>): seq<string> {
    if cs == [] then [] else (if cs[0].value.Some? then [cs[0].value.value] else []) + Params(cs[1..])
  }

  function Rendered(cs: seq<Condition>): string {
    if cs == [] then "" else " WHERE " + Join(Clauses(cs), " AND ")
  }

  method BuildWhereClause(filters: seq<Filter>) returns (r: Result)
    ensures r == if AllValid(filters) then Built(Rendered(MeantAll(filters)), Params(MeantAll(filters))) else Refused
  {
    if |filters| == 0 {
      return Built("", []);
    }
    var clauses: seq<string> := [];
    var params: seq<string> := [];
    hide Meant, ValidColumnName, AllowedOp, TrimSpace, ToUpper, Params, ValidFilter;
    for i := 0 to |filters|
      invariant AllValid(filters[..i])
      invariant clauses == Clauses(MeantAll(filters[..i])) && params == Params(MeantAll(filters[..i]))
    {
      var f := filters[i];
      FilterMeans(f);
      if f.NotAnObject? || !ValidColumnName(f.column) {
        return Refused;
      }
      var op := ToUpper(TrimSpace(f.op));
      if !AllowedOp(op) {
        return Refused;
      }
      if op == "IS NULL" || op == "IS NOT NULL" {
        clauses := clauses + [f.column + " " + op];
      } else {
        if f.value.None? {
          return Refused;
        }
        clauses := clauses + [f.column + " " + op + " ?"];
        params := params + [f.value.value];
      }
      OneMoreFilter(filters, i);
    }
    assert filters[..|filters|] == filters;
    r := Built(" WHERE " + Join(clauses, " AND "), params);
  }

  lemma FilterMeans(f: Filter)
    ensures ValidFilter(f) <==>
              f.Filter? && ValidColumnName(f.column)
              && AllowedOp(ToUpper(TrimSpace(f.op))) && (Nullary(ToUpper(TrimSpace(f.op))) || f.value.Some?)
    ensures ValidFilter(f) ==>
              var op := ToUpper(TrimSpace(f.op));
              Meant(f) == Condition(f.column, op, if Nullary(op) then None else f.value)
  {
  }

  lemma OneMoreFilter(filters: seq<Filter>, i: nat)
    requires i < |filters| && AllValid(filters[..i]) && ValidFilter(filters[i])
    ensures AllValid(filters[..i + 1])
    ensures var cs, c := MeantAll(filters[..i]), Meant(filters[i]);
            && Clauses(MeantAll(filters[..i + 1])) == Clauses(cs) + [Clause(c)]
            && Params(MeantAll(filters[..i + 1])) == Params(cs) + if c.value.Some? then [c.value.value] else []
  {
    hide Meant, ValidFilter, Params;
    var cs, c := MeantAll(filters[..i]), Meant(filters[i]);
    assert MeantAll(filters[..i + 1]) == cs + [c];
    ParamsSnoc(cs, c);
  }

  lemma {:induction false} ParamsSnoc(cs: seq<Condition>, c: Condition)
    ensures Params(cs + [c]) == Params(cs) + if c.value.Some? then [c.value.value] else []
    decreases |cs|
  {
    if cs == [] {
      assert [c][1..] == [];
    } else {
      assert (cs + [c])[1..] == cs[1..] + [c];
      ParamsSnoc(cs[1..], c);
    }
  }

  // Reading a clause back: cut it into words, and take the words condition by condition.

  function OpWords(op: string): seq<string> {
    if op == "NOT LIKE" then ["NOT", "LIKE"]
    else if op == "IS NULL" then ["IS", "NULL"]
    else if op == "IS NOT NULL" then ["IS", "NOT", "NULL"]
    else [op]
  }

  /** The operator at the start of the words, and how many of them it takes. */
  function ReadOp(words: seq<string>): (string, nat) {
    if |words| >= 2 && words[0] == "NOT" then ("NOT LIKE", 2)
    else if |words| >= 2 && words[0] == "IS" && words[1] == "NULL" then ("IS NULL", 2)
    else if |words| >= 3 && words[0] == "IS" then ("IS NOT NULL", 3)
    else if words != [] then (words[0], 1)
    else ("", 0)
  }

  datatype Reading = Reading(c: Condition, words: seq<string>, params: seq<string>)

  /** One condition: a column, an operator, and, if the operator takes one, a `?` for the next value. */
  function ReadOne(words: seq<string>, params: seq<string>): (r: Option<Reading>)
    ensures r.Some? ==> |r.value.words| < |words|
  {
    if words == [] then None else
      var (op, n) := ReadOp(words[1..]);
      if 1 + n > |words| then None
      else if Nullary(op) then Some(Reading(Condition(words[0], op, None), words[1 + n..], params))
      else if 1 + n == |words| || words[1 + n] != "?" || params == [] then None
      else Some(Reading(Condition(words[0], op, Some(params[0])), words[2 + n..], params[1..]))
  }

  /** One condition; then the end of the words and of the values, or AND and more conditions. */
  function Decode(words: seq<string>, params: seq<string>): Option<seq<Condition>>
    decreases |words|
  {
    match ReadOne(words, params)
    case None => None
    case Some(Reading(c, rest, left)) =>
      if rest == [] then (if left == [] then Some([c]) else None)
      else if rest[0] != "AND" then None
      else match Decode(rest[1..], left)
           case None => None
           case Some(cs) => Some([c] + cs)
  }

  const PREFIX: string := " WHERE "

  function DecodeClause(clause: string, params: seq<string>): Option<seq<Condition>> {
    if clause == "" then (if params == [] then Some([]) else None)
    else if PREFIX <= clause then Decode(Split(clause[|PREFIX|..], ' '), params)
    else None
  }

  function Words(c: Condition): seq<string> {
    [c.column] + OpWords(c.op) + if c.value.Some? then ["?"] else []
  }

  function AllWords(cs: seq<Condition>): seq<string> {
    if cs == [] then []
    else if |cs| == 1 then Words(cs[0])
    else Words(cs[0]) + ["AND"] + AllWords(cs[1..])
  }

  // The text is its words with single spaces between them.

  lemma {:induction false} JoinAppend(a: seq<string>, b: seq<string>, sep: string)
    requires a != [] && b != []
    ensures Join(a + b, sep) == Join(a, sep) + sep + Join(b, sep)
    decreases |a|
  {
    if |a| == 1 {
      assert (a + b)[1..] == b;
    } else {
      assert (a + b)[1..] == a[1..] + b;
      JoinAppend(a[1..], b, sep);
    }
  }

  lemma OpIsWords(op: string)
    requires AllowedOp(op)
    ensures Join(OpWords(op), " ") == op && OpWords(op) != []
  {
    if op == "IS NOT NULL" {
      JoinAppend(["IS"], ["NOT", "NULL"], " ");
      JoinAppend(["NOT"], ["NULL"], " ");
    } else if op == "IS NULL" {
      JoinAppend(["IS"], ["NULL"], " ");
    } else if op == "NOT LIKE" {
      JoinAppend(["NOT"], ["LIKE"], " ");
    }
  }

  lemma ClauseIsWords(c: Condition)
    requires WellFormed(c)
    ensures Join(Words(c), " ") == Clause(c)
  {
    hide AllowedOp, ValidColumnName, OpWords;
    OpIsWords(c.op);
    JoinAppend([c.column], OpWords(c.op), " ");
    if c.value.Some? {
      JoinAppend([c.column] + OpWords(c.op), ["?"], " ");
    } else {
      assert Words(c) == [c.column] + OpWords(c.op);
    }
  }

  lemma JoinHead(parts: seq<string>, sep: string)
    requires parts != []
    ensures Join(parts, sep) == if |parts| == 1 then parts[0] else parts[0] + sep + Join(parts[1..], sep)
  {
  }

  lemma {:induction false} ClausesAreWords(cs: seq<Condition>)
    requires cs != [] && AllWellFormed(cs)
    ensures Join(Clauses(cs), " AND ") == Join(AllWords(cs), " ") && AllWords(cs) != []
    decreases |cs|
  {
    hide WellFormed, Words, Clause, Join;
    ClauseIsWords(cs[0]);
    WordsAreSome(cs[0]);
    JoinHead(Clauses(cs), " AND ");
    if |cs| > 1 {
      var rest := cs[1..];
      ClausesAreWords(rest);
      assert Clauses(cs)[1..] == Clauses(rest);
      WithAnd(Words(cs[0]), AllWords(rest));
    }
  }

  lemma WithAnd(a: seq<string>, b: seq<string>)
    requires a != [] && b != []
    ensures Join(a + ["AND"] + b, " ") == Join(a, " ") + " AND " + Join(b, " ")
  {
    JoinAppend(a + ["AND"], b, " ");
    JoinAppend(a, ["AND"], " ");
    assert " " + "AND" + " " == " AND ";
  }

  lemma WordsAreSome(c: Condition)
    ensures Words(c) != []
  {
  }

  lemma {:induction false} WordsHaveNoSpace(cs: seq<Condition>)
    requires AllWellFormed(cs)
    ensures forall w :: w in AllWords(cs) ==> ' ' !in w
    decreases |cs|
  {
    hide WellFormed, Words;
    if cs != [] {
      NoSpace(cs[0]);
      WordsHaveNoSpace(cs[1..]);
    }
  }

  lemma NoSpace(c: Condition)
    requires WellFormed(c)
    ensures forall w :: w in Words(c) ==> ' ' !in w
  {
    assert ' ' !in c.column by {
      assert !NameChar(' ');
    }
  }

  // And the words read back.

  lemma OpReadBack(op: string, tail: seq<string>)
    requires AllowedOp(op)
    ensures ReadOp(OpWords(op) + tail) == (op, |OpWords(op)|)
  {
  }

  lemma OneReadBack(c: Condition, more: seq<string>, left: seq<string>)
    requires WellFormed(c)
    ensures ReadOne(Words(c) + more, (if c.value.Some? then [c.value.value] else []) + left) == Some(Reading(c, more, left))
  {
    hide AllowedOp, ValidColumnName, OpWords, ReadOp;
    var place := if c.value.Some? then ["?"] else [];
    var words := Words(c) + more;
    var n := |OpWords(c.op)|;
    assert words[1..] == OpWords(c.op) + (place + more);
    OpReadBack(c.op, place + more);
    assert words[1 + n..] == place + more;
    if c.value.Some? {
      assert words[1 + n..][0] == "?";
      assert words[2 + n..] == more;
      assert ([c.value.value] + left)[1..] == left;
    } else {
      assert [] + left == left;
    }
  }

  lemma {:induction false} WordsReadBack(cs: seq<Condition>)
    requires cs != [] && AllWellFormed(cs)
    ensures Decode(AllWords(cs), Params(cs)) == Some(cs)
    decreases |cs|
  {
    hide WellFormed, Words, ReadOne;
    var rest := cs[1..];
    assert cs == [cs[0]] + rest;
    if rest == [] {
      OneReadBack(cs[0], [], Params(rest));
      assert Words(cs[0]) + [] == AllWords(cs) && Params(rest) == [];
      assert ReadOne(AllWords(cs), Params(cs)) == Some(Reading(cs[0], [], []));
      assert cs == [cs[0]];
    } else {
      var more := ["AND"] + AllWords(rest);
      OneReadBack(cs[0], more, Params(rest));
      assert AllWords(cs) == Words(cs[0]) + more;
      assert more[1..] == AllWords(rest);
      WordsReadBack(rest);
    }
  }

  /** Whatever is built from filters, reading it back gives the filters as they were meant, each with its own value. */
  lemma ReadBack(filters: seq<Filter>)
    requires AllValid(filters)
    ensures DecodeClause(Rendered(MeantAll(filters)), Params(MeantAll(filters))) == Some(MeantAll(filters))
  {
    hide ValidColumnName, AllowedOp, TrimSpace, ToUpper;
    var cs := MeantAll(filters);
    if cs != [] {
      ClausesAreWords(cs);
      WordsHaveNoSpace(cs);
      SplitJoin(AllWords(cs), ' ');
      WordsReadBack(cs);
      assert Rendered(cs)[|PREFIX|..] == Join(AllWords(cs), " ");
    }
  }

  // Places and values.

  function Places(s: string): nat {
    if s == [] then 0 else Places(s[1..]) + if s[0] == '?' then 1 else 0
  }

  lemma {:induction false} PlacesAppend(a: string, b: string)
    ensures Places(a + b) == Places(a) + Places(b)
    decreases |a|
  {
    if a == [] {
      assert a + b == b;
    } else {
      assert (a + b)[1..] == a[1..] + b;
      PlacesAppend(a[1..], b);
    }
  }

  lemma {:induction false} NoPlaces(s: string)
    requires '?' !in s
    ensures Places(s) == 0
    decreases |s|
  {
    if s != [] {
      NoPlaces(s[1..]);
    }
  }

  lemma ClausePlaces(c: Condition)
    requires WellFormed(c)
    ensures Places(Clause(c)) == if c.value.Some? then 1 else 0
  {
    assert '?' !in c.column by {
      assert !NameChar('?');
    }
    var front := c.column + " " + c.op;
    NoPlaces(front);
    PlacesAppend(front, " ?");
    assert Places(" ?") == 1 by {
      NoPlaces(" ");
      PlacesAppend(" ", "?");
    }
  }

  lemma {:induction false} ClausesPlaces(cs: seq<Condition>)
    requires cs != [] && AllWellFormed(cs)
    ensures Places(Join(Clauses(cs), " AND ")) == |Params(cs)|
    decreases |cs|
  {
    hide WellFormed, Clause;
    ClausePlaces(cs[0]);
    if |cs| > 1 {
      ClausesPlaces(cs[1..]);
      assert Clauses(cs)[1..] == Clauses(cs[1..]);
      PlacesAppend(Clause(cs[0]) + " AND ", Join(Clauses(cs[1..]), " AND "));
      PlacesAppend(Clause(cs[0]), " AND ");
      NoPlaces(" AND ");
    }
  }

  /** There are as many `?` in the clause as values beside it. */
  lemma PlacesMatchParams(filters: seq<Filter>)
    requires AllValid(filters)
    ensures Places(Rendered(MeantAll(filters))) == |Params(MeantAll(filters))|
  {
    hide ValidColumnName, AllowedOp, TrimSpace, ToUpper;
    var cs := MeantAll(filters);
    if cs != [] {
      ClausesPlaces(cs);
      PlacesAppend(PREFIX, Join(Clauses(cs), " AND "));
      NoPlaces(PREFIX);
    }
  }
}
