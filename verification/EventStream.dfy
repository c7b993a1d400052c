/**
 How section 9.2 of the WHATWG HTML Standard reads the lines of an event stream, and exactly when the clients of
 llm/, which look for `data: ` at the start of a line, hear the same events.
 */
module EventStream {
  import opened GoStrings
  import opened Sse
  import opened Wrappers

  datatype Field = Field(name: string, value: string)

  /** The name is what stands before the first colon, and one space behind the colon is dropped. */
  function ReadField(line: string): Option<Field> {
    if line == "" || line[0] == ':' then None
    else if ':' in line then
      var (name, value) := Cut(line, ':');
      Some(Field(name, if value != "" && value[0] == ' ' then value[1..] else value))
    else Some(Field(line, ""))
  }

  function DataOf(line: string): Option<string> {
    match ReadField(line)
    case Some(Field(name, value)) => if name == "data" then Some(value) else None
    case None => None
  }

  /** The events dispatched: a blank line ends an event, several data lines are joined, and an unfinished event is lost. */
  function Dispatched(lines: seq<string>, pending: Option<string>): seq<string> {
    if lines == [] then []
    else if lines[0] == "" then (if pending.Some? then [pending.value] else []) + Dispatched(lines[1..], None)
    else match DataOf(lines[0])
         case None => Dispatched(lines[1..], pending)
         case Some(v) => Dispatched(lines[1..], Some(if pending.Some? then pending.value + "\n" + v else v))
  }

  /** Every event has one data line, and is ended by a blank line. */
  predicate OneLineEvents(lines: seq<string>, pending: bool) {
    if lines == [] then !pending
    else if lines[0] == "" then OneLineEvents(lines[1..], false)
    else if DataOf(lines[0]).Some? then !pending && OneLineEvents(lines[1..], true)
    else OneLineEvents(lines[1..], pending)
  }

  /** The value of every data line, by the standard. */
  function Payloads(lines: seq<string>): seq<string> {
    if lines == [] then []
    else match DataOf(lines[0])
         case None => Payloads(lines[1..])
         case Some(v) => [v] + Payloads(lines[1..])
  }

  /** What the clients take from the lines. */
  function ClientPayloads(lines: seq<string>): seq<string> {
    if lines == [] then []
    else if HasData(lines[0]) then [lines[0][|DATA|..]] + ClientPayloads(lines[1..])
    else ClientPayloads(lines[1..])
  }

  /** Reading data lines one by one is reading events, when each event has one. */
  lemma {:induction false} OneLineDispatch(lines: seq<string>, pending: Option<string>)
    requires OneLineEvents(lines, pending.Some?)
    ensures Dispatched(lines, pending) == (if pending.Some? then [pending.value] else []) + Payloads(lines)
    ensures pending.None? ==> Dispatched(lines, pending) == Payloads(lines)
    decreases |lines|
  {
    hide DataOf;
    if lines != [] {
      if lines[0] == "" {
        NotData();
        OneLineDispatch(lines[1..], None);
      } else {
        match DataOf(lines[0])
        case None => OneLineDispatch(lines[1..], pending);
        case Some(v) => OneLineDispatch(lines[1..], Some(v));
      }
    }
  }

  lemma NotData()
    ensures DataOf("") == None
  {
  }

  /** A data field without the space. */
  predicate SpaceMissing(line: string) { DataOf(line).Some? && !HasData(line) }

  lemma DataLine(line: string)
    requires HasData(line)
    ensures |DATA| <= |line| && line == "data" + [':'] + (" " + line[|DATA|..]) && line[0] == 'd' && ':' !in "data"
  {
    assert line == line[..|DATA|] + line[|DATA|..];
    assert DATA == "data" + [':'] + " ";
  }

  /** Where the clients take a line, they take what the standard takes. */
  lemma ClientsReadData(line: string)
    requires HasData(line)
    ensures DataOf(line) == Some(line[|DATA|..])
  {
    DataLine(line);
    hide HasData;
    var value := " " + line[|DATA|..];
    CutUnique(line, ':', "data", value);
    hide Cut;
    assert value[1..] == line[|DATA|..];
  }

  /** What the payloads mean, without those that mean nothing. */
  function Kept<E(==)>(payloads: seq<string>, read: string -> E, nothing: E): seq<E> {
    if payloads == [] then []
    else if read(payloads[0]) == nothing then Kept(payloads[1..], read, nothing)
    else [read(payloads[0])] + Kept(payloads[1..], read, nothing)
  }

  predicate NothingMissed<E(==)>(lines: seq<string>, read: string -> E, nothing: E) {
    forall line :: line in lines && SpaceMissing(line) ==> read(DataOf(line).value) == nothing
  }

  /** The clients hear what the standard says exactly when every data line without the space means nothing. */
  lemma {:induction false} SameEvents<E>(lines: seq<string>, read: string -> E, nothing: E)
    ensures Kept(ClientPayloads(lines), read, nothing) == Kept(Payloads(lines), read, nothing)
            <==> NothingMissed(lines, read, nothing)
    ensures |Kept(ClientPayloads(lines), read, nothing)| <= |Kept(Payloads(lines), read, nothing)|
    decreases |lines|
  {
    hide DataOf, HasData, Kept;
    if lines == [] {
      assert NothingMissed(lines, read, nothing);
    } else {
      var line, rest := lines[0], lines[1..];
      SameEvents(rest, read, nothing);
      assert NothingMissed(lines, read, nothing)
        <==> (SpaceMissing(line) ==> read(DataOf(line).value) == nothing) && NothingMissed(rest, read, nothing)
      by {
        assert lines == [line] + rest;
      }
      if HasData(line) {
        ClientsReadData(line);
        assert |DATA| <= |line| by {
          LongEnough(line);
        }
        KeptFirst(line[|DATA|..], ClientPayloads(rest), read, nothing);
        KeptFirst(line[|DATA|..], Payloads(rest), read, nothing);
        Cancelled(read(line[|DATA|..]), Kept(ClientPayloads(rest), read, nothing), Kept(Payloads(rest), read, nothing));
        assert !SpaceMissing(line);
      } else if DataOf(line).Some? {
        KeptFirst(DataOf(line).value, Payloads(rest), read, nothing);
      }
    }
  }

  lemma Cancelled<E>(e: E, a: seq<E>, b: seq<E>)
    ensures [e] + a == [e] + b <==> a == b
  {
    assert ([e] + a)[1..] == a && ([e] + b)[1..] == b;
  }

  lemma LongEnough(line: string)
    requires HasData(line)
    ensures |DATA| <= |line|
  {
  }

  lemma KeptFirst<E>(p: string, rest: seq<string>, read: string -> E, nothing: E)
    ensures Kept([p] + rest, read, nothing) ==
            if read(p) == nothing then Kept(rest, read, nothing) else [read(p)] + Kept(rest, read, nothing)
  {
    assert ([p] + rest)[1..] == rest;
  }

  /** What a client that reads payloads by `read` hears. */
  function ReadAll<E>(lines: seq<string>, read: string -> E): seq<E> {
    if lines == [] then []
    else if HasData(lines[0]) then [read(lines[0][|DATA|..])] + ReadAll(lines[1..], read)
    else ReadAll(lines[1..], read)
  }

  /** The events that carry something. */
  function Meaning<E(==)>(events: seq<E>, nothing: E): seq<E> {
    if events == [] then []
    else if events[0] == nothing then Meaning(events[1..], nothing)
    else [events[0]] + Meaning(events[1..], nothing)
  }

  lemma {:induction false} MeaningIsKept<E>(lines: seq<string>, read: string -> E, nothing: E)
    ensures Meaning(ReadAll(lines, read), nothing) == Kept(ClientPayloads(lines), read, nothing)
    decreases |lines|
  {
    if lines != [] {
      MeaningIsKept(lines[1..], read, nothing);
      if HasData(lines[0]) {
        var payload, rest := lines[0][|DATA|..], ReadAll(lines[1..], read);
        KeptFirst(payload, ClientPayloads(lines[1..]), read, nothing);
        assert ([read(payload)] + rest)[1..] == rest;
      }
    }
  }

  lemma {:induction false} HeardNothing<E>(lines: seq<string>, read: string -> E)
    ensures ClientPayloads(lines) == [] ==> ReadAll(lines, read) == []
    decreases |lines|
  {
    if lines != [] {
      HeardNothing(lines[1..], read);
    }
  }

  /**
   A client hears what the standard dispatches, when each event has one data line, exactly when no data field
   without the space carries anything.
   */
  lemma HearsTheStandard<E>(lines: seq<string>, read: string -> E, nothing: E)
    requires OneLineEvents(lines, false)
    ensures Meaning(ReadAll(lines, read), nothing) == Kept(Dispatched(lines, None), read, nothing)
            <==> NothingMissed(lines, read, nothing)
  {
    hide ReadAll, Meaning, Kept, NothingMissed, Dispatched, Payloads, ClientPayloads, OneLineEvents;
    MeaningIsKept(lines, read, nothing);
    SameEvents(lines, read, nothing);
    OneLineDispatch(lines, None);
  }

  /** A finished stream of which the clients hear nothing. */
  lemma DoneWithoutSpace(lines: seq<string>)
    requires lines == ["data:" + DONE, ""]
    ensures OneLineEvents(lines, false) && Dispatched(lines, None) == [DONE] && ClientPayloads(lines) == []
  {
    var line := lines[0];
    assert line == "data" + [':'] + DONE;
    CutUnique(line, ':', "data", DONE);
    assert DataOf(line) == Some(DONE);
    assert !HasData(line) by {
      assert line[5] == '[' && DATA[5] == ' ';
    }
    assert !HasData("");
    hide DataOf, HasData;
    NotData();
    assert lines[1..] == [""] && lines[1..][1..] == [];
    assert OneLineEvents([""], true) && Dispatched([""], Some(DONE)) == [DONE] && ClientPayloads([""]) == [];
  }

  // Streams as a server writes them: messages, and between them lines that carry none.

  /** Some lines in front of each payload, and the line of the payload. */
  function Sent(payloads: seq<string>, between: seq<seq<string>>): seq<string>
    requires |between| == |payloads|
  {
    if payloads == [] then [] else
      var n := |payloads| - 1;
      Sent(payloads[..n], between[..n]) + (between[n] + ["data: " + payloads[n]])
  }

  /** A blank line, a comment, another field, or a payload other than [DONE] that does not decode. */
  predicate Noise<E>(line: string, decode: string -> Option<E>) {
    |line| < 6 || line[..6] != "data: " || (line[6..] != "[DONE]" && decode(line[6..]).None?)
  }

  ghost predicate OnlyNoise<E(!new)>(between: seq<seq<string>>, decode: string -> Option<E>) {
    forall i, line :: 0 <= i < |between| && line in between[i] ==> Noise(line, decode)
  }

  /** Messages that decode, none of them [DONE]. */
  ghost predicate Decoded<E>(payloads: seq<string>, decode: string -> Option<E>, values: seq<E>) {
    |values| == |payloads| && forall i :: 0 <= i < |payloads| ==> payloads[i] != "[DONE]" && decode(payloads[i]) == Some(values[i])
  }

  /** A line that is read as nothing, if it is read at all. */
  predicate Silent<E(==)>(line: string, read: string -> E, nothing: E) {
    HasData(line) ==> read(line[|DATA|..]) == nothing
  }

  lemma HasDataMeans(line: string)
    ensures HasData(line) <==> |line| >= 6 && line[..6] == "data: "
    ensures HasData("data: " + line) && ("data: " + line)[|DATA|..] == line
  {
    assert |line| >= 6 && line[..6] == "data: " ==> DATA <= line;
    assert ("data: " + line)[..6] == "data: ";
  }

  lemma {:induction false} ReadAllAppend<E>(a: seq<string>, b: seq<string>, read: string -> E)
    ensures ReadAll(a + b, read) == ReadAll(a, read) + ReadAll(b, read)
    decreases |a|
  {
    hide HasData;
    if a == [] {
      assert a + b == b;
    } else {
      assert (a + b)[1..] == a[1..] + b;
      ReadAllAppend(a[1..], b, read);
    }
  }

  lemma {:induction false} MeaningAppend<E>(a: seq<E>, b: seq<E>, nothing: E)
    ensures Meaning(a + b, nothing) == Meaning(a, nothing) + Meaning(b, nothing)
    decreases |a|
  {
    if a == [] {
      assert a + b == b;
    } else {
      assert (a + b)[1..] == a[1..] + b;
      MeaningAppend(a[1..], b, nothing);
    }
  }

  lemma {:induction false} SilentRead<E>(lines: seq<string>, read: string -> E, nothing: E)
    requires forall line :: line in lines ==> Silent(line, read, nothing)
    ensures Meaning(ReadAll(lines, read), nothing) == []
    decreases |lines|
  {
    if lines != [] {
      assert Silent(lines[0], read, nothing);
      SilentRead(lines[1..], read, nothing);
      if HasData(lines[0]) {
        assert ([read(lines[0][|DATA|..])] + ReadAll(lines[1..], read))[1..] == ReadAll(lines[1..], read);
      }
    }
  }

  /** What is read of a stream, as far as it carries something, is what is read of its payloads. */
  lemma {:induction false} SentMeans<E>(payloads: seq<string>, between: seq<seq<string>>, read: string -> E, nothing: E, values: seq<E>)
    requires |between| == |payloads| == |values| && forall i :: 0 <= i < |payloads| ==> read(payloads[i]) == values[i]
    requires forall i, line :: 0 <= i < |between| && line in between[i] ==> Silent(line, read, nothing)
    ensures Meaning(ReadAll(Sent(payloads, between), read), nothing) == Meaning(values, nothing)
    decreases |payloads|
  {
    hide HasData, Silent, ReadAll, Meaning;
    if payloads == [] {
      NothingSent(read, nothing);
    } else {
      var n := |payloads| - 1;
      var front, line := Sent(payloads[..n], between[..n]), "data: " + payloads[n];
      SentMeans(payloads[..n], between[..n], read, nothing, values[..n]);
      ReadAllAppend(front, between[n] + [line], read);
      ReadAllAppend(between[n], [line], read);
      MeaningAppend(ReadAll(front, read), ReadAll(between[n] + [line], read), nothing);
      MeaningAppend(ReadAll(between[n], read), ReadAll([line], read), nothing);
      SilentRead(between[n], read, nothing);
      OneSent(payloads[n], read);
      MeaningAppend(values[..n], [values[n]], nothing);
      assert values == values[..n] + [values[n]];
    }
  }

  lemma NothingSent<E>(read: string -> E, nothing: E)
    ensures Meaning(ReadAll([], read), nothing) == [] == Meaning([], nothing)
  {
  }

  lemma OneSent<E>(payload: string, read: string -> E)
    ensures ReadAll(["data: " + payload], read) == [read(payload)]
  {
    HasDataMeans(payload);
    hide HasData;
    assert ["data: " + payload][1..] == [];
  }
}
