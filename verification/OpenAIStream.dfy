/**
 Reassembly of a streamed reply in llm/openai/client.go: `parseSSEStream` keeps unfinished tool calls in two
 maps keyed by their number, and hands them over by walking a map, whose order is not fixed.
 */
module OpenAIStream {
  import opened Wrappers
  import opened EventStream
  import opened Sse

  /** A piece of a tool call; a piece with an id starts a new call. The index is on the wire, and the client drops it. */
  datatype Fragment = Fragment(index: nat, id: string, name: string, args: string)

  datatype Choice = Choice(content: string, tools: seq<Fragment>, finish: Option<string>)

  datatype Event = Data(usage: Option<Usage>, choice: Option<Choice>) | Finished

  type Decoder = string -> Option<Event>

  const NOTHING := Data(None, None)

  function Read(payload: string, decode: Decoder): Event {
    if payload == DONE then Finished else
      match decode(payload) case Some(Data(u, c)) => Data(u, c) case _ => NOTHING
  }

  function Reader(decode: Decoder): string -> Event { payload => Read(payload, decode) }

  function Events(lines: seq<string>, decode: Decoder): seq<Event> {
    ReadAll(lines, Reader(decode))
  }

  // The parser, event by event, on a plain list of unfinished calls.

  datatype Parser = Parser(parts: seq<ToolCall>, usage: Option<Usage>, chunks: seq<Chunk>)

  const START := Parser([], None, [])

  function Complete(c: ToolCall): ToolCall { if c.arguments == "" then c.(arguments := "{}") else c }

  /** A piece without an id goes to the latest call, whichever call it was meant for. */
  function Take(parts: seq<ToolCall>, f: Fragment): seq<ToolCall> {
    if f.id != "" then parts + [ToolCall(f.id, f.name, f.args)]
    else if parts == [] then []
    else var last := |parts| - 1; parts[last := parts[last].(arguments := parts[last].arguments + f.args)]
  }

  function TakeAll(parts: seq<ToolCall>, fs: seq<Fragment>): seq<ToolCall> {
    if fs == [] then parts else Take(TakeAll(parts, fs[..|fs| - 1]), fs[|fs| - 1])
  }

  /** The chunks of a walk over the map. */
  function Flushed(parts: seq<ToolCall>, walk: seq<nat>): seq<Chunk> {
    if walk == [] then []
    else Flushed(parts, walk[..|walk| - 1])
         + if walk[|walk| - 1] < |parts| then [Tool(Complete(parts[walk[|walk| - 1]]))] else []
  }

  /** The numbers from 0 up to, not including, `n`. */
  function Numbers(n: nat): (r: set<nat>)
    ensures forall k: nat :: k in r <==> k < n
    ensures |r| == n
  {
    if n == 0 then {} else Numbers(n - 1) + {n - 1}
  }

  /** The walk visits every key once. */
  predicate Visits(walk: seq<nat>, n: nat) { multiset(walk) == multiset(Numbers(n)) }

  function Heard(p: Parser, e: Event): Parser {
    match e
    case Finished => p
    case Data(usage, choice) =>
      var u := if usage.Some? then usage else p.usage;
      match choice
      case None => p.(usage := u)
      case Some(c) =>
        Parser(TakeAll(p.parts, c.tools), u, if c.content != "" then p.chunks + [Text(c.content)] else p.chunks)
  }

  predicate Flushes(e: Event) {
    e.Finished? || (e.choice.Some? && e.choice.value.finish == Some("tool_calls"))
  }

  function React(p: Parser, e: Event, walk: seq<nat>): Parser {
    var h := Heard(p, e);
    if Flushes(e) then Parser([], h.usage, h.chunks + Flushed(h.parts, walk)) else h
  }

  /** The parser behind some events, given the walk that each flush took. */
  function After(events: seq<Event>, walks: seq<seq<nat>>): Parser
    requires |walks| == |events|
  {
    if events == [] then START
    else var n := |events| - 1; React(After(events[..n], walks[..n]), events[n], walks[n])
  }

  predicate Walked(events: seq<Event>, walks: seq<seq<nat>>): (r: bool)
    ensures r ==> |walks| == |events|
  {
    |walks| == |events| && (events == [] || (
      var n := |events| - 1;
      && Walked(events[..n], walks[..n])
      && (Flushes(events[n]) ==> Visits(walks[n], |Heard(After(events[..n], walks[..n]), events[n]).parts|))))
  }

  /** Reading stops with [DONE]. */
  function UpToDone(events: seq<Event>): seq<Event> {
    if events == [] then [] else if events[0].Finished? then [Finished] else [events[0]] + UpToDone(events[1..])
  }

  function Closed(p: Parser, finished: bool, broken: bool): Outcome {
    if broken && !finished then Outcome(p.chunks, false) else Outcome(p.chunks + [Done(p.usage)], true)
  }

  // The code.

  datatype Head = Head(id: string, name: string)

  /** The two maps hold the calls, under the numbers from 0 up. */
  ghost predicate Represents(toolCalls: map<nat, Head>, toolArgs: map<nat, string>, parts: seq<ToolCall>) {
    && toolCalls.Keys == toolArgs.Keys == Numbers(|parts|)
    && forall k :: 0 <= k < |parts| ==>
         toolCalls[k] == Head(parts[k].id, parts[k].name) && toolArgs[k] == parts[k].arguments
  }

  method Flush(toolCalls: map<nat, Head>, toolArgs: map<nat, string>, chunks: seq<Chunk>, ghost parts: seq<ToolCall>)
    returns (out: seq<Chunk>, walk: seq<nat>)
    requires Represents(toolCalls, toolArgs, parts)
    ensures Visits(walk, |parts|) && out == chunks + Flushed(parts, walk)
  {
    hide Numbers, Flushed;
    out, walk := chunks, [];
    var pending := toolCalls.Keys;
    NothingFlushed(parts, chunks);
    while pending != {}
      invariant pending <= toolCalls.Keys && multiset(walk) + multiset(pending) == multiset(Numbers(|parts|))
      invariant out == chunks + Flushed(parts, walk)
      decreases |pending|
    {
      var idx :| idx in pending;
      var tc := ToolCall(toolCalls[idx].id, toolCalls[idx].name, "");
      if idx in toolArgs {
        tc := tc.(arguments := toolArgs[idx]);
        if tc.arguments == "" {
          tc := tc.(arguments := "{}");
        }
      }
      OneFlushed(parts, walk, idx, chunks);
      out, walk, pending := out + [Tool(tc)], walk + [idx], pending - {idx};
    }
  }

  lemma NothingFlushed(parts: seq<ToolCall>, chunks: seq<Chunk>)
    ensures chunks + Flushed(parts, []) == chunks
  {
  }

  lemma OneFlushed(parts: seq<ToolCall>, walk: seq<nat>, k: nat, chunks: seq<Chunk>)
    requires k < |parts|
    ensures chunks + Flushed(parts, walk + [k]) == chunks + Flushed(parts, walk) + [Tool(Complete(parts[k]))]
  {
    assert (walk + [k])[..|walk|] == walk;
  }

  method TakeFragment(f: Fragment, calls: map<nat, Head>, args: map<nat, string>, ghost parts: seq<ToolCall>)
    returns (toolCalls: map<nat, Head>, toolArgs: map<nat, string>)
    requires Represents(calls, args, parts)
    ensures Represents(toolCalls, toolArgs, Take(parts, f))
  {
    hide Represents;
    HowMany(calls, args, parts);
    toolCalls, toolArgs := calls, args;
    if f.id != "" {
      toolCalls := toolCalls[|toolCalls| := Head(f.id, f.name)];
      toolArgs := toolArgs[|toolCalls| - 1 := ""];
      Started(calls, args, parts, f);
      HowMany(toolCalls, toolArgs, parts + [ToolCall(f.id, f.name, "")]);
    }
    ghost var now := if f.id != "" then parts + [ToolCall(f.id, f.name, "")] else parts;
    if f.args != "" {
      var lastIdx := |toolCalls| - 1;
      if lastIdx >= 0 {
        if lastIdx in toolArgs {
          Extended(toolCalls, toolArgs, now, f.args);
          toolArgs := toolArgs[lastIdx := toolArgs[lastIdx] + f.args];
        }
      }
    }
    Taken(parts, now, f);
  }

  lemma HowMany(toolCalls: map<nat, Head>, toolArgs: map<nat, string>, parts: seq<ToolCall>)
    requires Represents(toolCalls, toolArgs, parts)
    ensures |toolCalls| == |parts|
    ensures forall k: nat :: k in toolArgs <==> k < |parts|
  {
    hide Numbers;
    assert |toolCalls| == |toolCalls.Keys|;
    assert forall k: nat :: k in toolArgs <==> k in toolArgs.Keys;
  }

  lemma Started(toolCalls: map<nat, Head>, toolArgs: map<nat, string>, parts: seq<ToolCall>, f: Fragment)
    requires Represents(toolCalls, toolArgs, parts)
    ensures var n := |parts|;
            && |toolCalls[n := Head(f.id, f.name)]| == n + 1
            && Represents(toolCalls[n := Head(f.id, f.name)], toolArgs[n := ""], parts + [ToolCall(f.id, f.name, "")])
  {
    hide Numbers;
    NextKey(toolCalls, |parts|, Head(f.id, f.name));
    NextKey(toolArgs, |parts|, "");
  }

  lemma NextKey<V>(m: map<nat, V>, n: nat, v: V)
    requires m.Keys == Numbers(n)
    ensures m[n := v].Keys == Numbers(n + 1) && |m[n := v]| == n + 1
  {
    assert m[n := v].Keys == m.Keys + {n};
    assert |m[n := v]| == |m[n := v].Keys|;
  }

  lemma Extended(toolCalls: map<nat, Head>, toolArgs: map<nat, string>, parts: seq<ToolCall>, args: string)
    requires Represents(toolCalls, toolArgs, parts) && parts != []
    ensures var last := |parts| - 1;
            && last in toolArgs
            && Represents(toolCalls, toolArgs[last := toolArgs[last] + args],
                          parts[last := parts[last].(arguments := parts[last].arguments + args)])
  {
    hide Numbers;
    var last := |parts| - 1;
    assert last in Numbers(|parts|);
    assert toolArgs[last := toolArgs[last] + args].Keys == toolArgs.Keys;
  }

  lemma Taken(parts: seq<ToolCall>, now: seq<ToolCall>, f: Fragment)
    requires now == if f.id != "" then parts + [ToolCall(f.id, f.name, "")] else parts
    ensures Take(parts, f) ==
            if now == [] then [] else
              var last := |now| - 1; now[last := now[last].(arguments := now[last].arguments + f.args)]
    ensures f.args == "" ==> Take(parts, f) == now
  {
    if now != [] {
      var last := |now| - 1;
      assert f.args == "" ==> now[last].arguments + f.args == now[last].arguments;
      assert "" + f.args == f.args;
      assert Take(parts, f) == now[last := now[last].(arguments := now[last].arguments + f.args)];
    }
  }

  method TakeFragments(fs: seq<Fragment>, calls: map<nat, Head>, args: map<nat, string>, ghost parts: seq<ToolCall>)
    returns (toolCalls: map<nat, Head>, toolArgs: map<nat, string>)
    requires Represents(calls, args, parts)
    ensures Represents(toolCalls, toolArgs, TakeAll(parts, fs))
  {
    hide Represents, Take;
    toolCalls, toolArgs := calls, args;
    assert fs[..0] == [];
    for i := 0 to |fs|
      invariant Represents(toolCalls, toolArgs, TakeAll(parts, fs[..i]))
    {
      assert fs[..i + 1][..i] == fs[..i];
      toolCalls, toolArgs := TakeFragment(fs[i], toolCalls, toolArgs, TakeAll(parts, fs[..i]));
    }
    assert fs[..|fs|] == fs;
  }

  /** One event other than [DONE]. */
  method Hear(e: Event, calls: map<nat, Head>, args: map<nat, string>, ghost p: Parser, before: Option<Usage>, seen: seq<Chunk>)
    returns (toolCalls: map<nat, Head>, toolArgs: map<nat, string>, usage: Option<Usage>, chunks: seq<Chunk>, walk: seq<nat>)
    requires e.Data? && Represents(calls, args, p.parts) && p == Parser(p.parts, before, seen)
    ensures var q := React(p, e, walk); Represents(toolCalls, toolArgs, q.parts) && q == Parser(q.parts, usage, chunks)
    ensures Flushes(e) ==> Visits(walk, |Heard(p, e).parts|)
  {
    hide Represents, Flushed, Visits, TakeAll;
    toolCalls, toolArgs, usage, chunks, walk := calls, args, before, seen, [];
    if e.usage.Some? {
      usage := e.usage;
    }
    if e.choice.None? {
      return;
    }
    var choice := e.choice.value;
    if choice.content != "" {
      chunks := chunks + [Text(choice.content)];
    }
    toolCalls, toolArgs := TakeFragments(choice.tools, toolCalls, toolArgs, p.parts);
    if choice.finish == Some("tool_calls") {
      chunks, walk := Flush(toolCalls, toolArgs, chunks, Heard(p, e).parts);
      toolCalls, toolArgs := map[], map[];
      NoneKept();
    }
  }

  lemma NoneKept()
    ensures Represents(map[], map[], [])
  {
  }

  /** The outcome of reading, given the walk that each flush took. */
  ghost predicate Delivers(lines: seq<string>, decode: Decoder, broken: bool, walks: seq<seq<nat>>, o: Outcome) {
    var events := UpToDone(Events(lines, decode));
    && Walked(events, walks)
    && o == Closed(After(events, walks), events != [] && events[|events| - 1].Finished?, broken)
  }

  method ParseSSEStream(lines: seq<string>, broken: bool, decode: Decoder)
    returns (chunks: seq<Chunk>, ok: bool, walks: seq<seq<nat>>)
    ensures Delivers(lines, decode, broken, walks, Outcome(chunks, ok))
  {
    chunks, walks := [], [];
    var toolCalls: map<nat, Head> := map[];
    var toolArgs: map<nat, string> := map[];
    var usage: Option<Usage> := None;
    ghost var p, heard: seq<Event> := START, [];
    AtStart(lines, decode);
    hide Represents, Flushed, Visits, React, Reading, Heard, Delivers;
    for i := 0 to |lines|
      invariant Reading(lines, i, decode, heard, walks, p) && p == Parser(p.parts, usage, chunks)
      invariant Represents(toolCalls, toolArgs, p.parts)
    {
      var line := lines[i];
      IgnoredMeans(line);
      if Ignored(line) {
        Skipped(lines, i, decode, heard, walks, p);
        continue;
      }
      var data := line[|DATA|..];
      if data == DONE {
        var walk;
        chunks, walk := Flush(toolCalls, toolArgs, chunks, p.parts);
        DoneRead(lines, i, decode, heard, walks, p, walk, broken);
        chunks, ok, walks := chunks + [Done(usage)], true, walks + [walk];
        return;
      }
      var chunk := match decode(data) case Some(Data(u, c)) => Data(u, c) case _ => NOTHING;
      var walk;
      toolCalls, toolArgs, usage, chunks, walk := Hear(chunk, toolCalls, toolArgs, p, usage, chunks);
      EventRead(lines, i, decode, heard, walks, p, chunk, walk);
      p, heard, walks := React(p, chunk, walk), heard + [chunk], walks + [walk];
    }
    RunOut(lines, decode, heard, walks, p, broken);
    if broken {
      ok := false;
      return;
    }
    chunks, ok := chunks + [Done(usage)], true;
  }

  /** Before line `i`: the events heard so far led to `p`, by the walks taken, and the rest is still ahead. */
  ghost predicate Reading(lines: seq<string>, i: nat, decode: Decoder, heard: seq<Event>, walks: seq<seq<nat>>, p: Parser)
    requires i <= |lines|
  {
    && UpToDone(Events(lines, decode)) == heard + UpToDone(Events(lines[i..], decode))
    && (heard != [] ==> !heard[|heard| - 1].Finished?)
    && Walked(heard, walks) && After(heard, walks) == p
  }

  lemma AtStart(lines: seq<string>, decode: Decoder)
    ensures Reading(lines, 0, decode, [], [], START) && Represents(map[], map[], [])
  {
    assert lines[0..] == lines;
  }

  lemma Skipped(lines: seq<string>, i: nat, decode: Decoder, heard: seq<Event>, walks: seq<seq<nat>>, p: Parser)
    requires i < |lines| && Reading(lines, i, decode, heard, walks, p) && !HasData(lines[i])
    ensures Reading(lines, i + 1, decode, heard, walks, p)
  {
    hide Walked, After, UpToDone;
    assert lines[i..][0] == lines[i] && lines[i..][1..] == lines[i + 1..];
  }

  lemma EventRead(lines: seq<string>, i: nat, decode: Decoder, heard: seq<Event>, walks: seq<seq<nat>>, p: Parser,
                  e: Event, walk: seq<nat>)
    requires i < |lines| && Reading(lines, i, decode, heard, walks, p) && HasData(lines[i])
    requires e == Read(lines[i][|DATA|..], decode) && e.Data? && (Flushes(e) ==> Visits(walk, |Heard(p, e).parts|))
    ensures Reading(lines, i + 1, decode, heard + [e], walks + [walk], React(p, e, walk))
  {
    hide Walked, After, React, Visits, Heard, Flushes;
    OneStep(heard, walks, e, walk);
    NextEvent(lines, i, decode);
    var rest := Events(lines[i + 1..], decode);
    assert ([e] + rest)[1..] == rest;
    assert heard + ([e] + UpToDone(rest)) == heard + [e] + UpToDone(rest);
  }

  lemma DoneRead(lines: seq<string>, i: nat, decode: Decoder, heard: seq<Event>, walks: seq<seq<nat>>, p: Parser,
                 walk: seq<nat>, broken: bool)
    requires i < |lines| && Reading(lines, i, decode, heard, walks, p)
    requires HasData(lines[i]) && lines[i][|DATA|..] == DONE && Visits(walk, |p.parts|)
    ensures Delivers(lines, decode, broken, walks + [walk], Outcome(p.chunks + Flushed(p.parts, walk) + [Done(p.usage)], true))
  {
    hide Walked, After, Visits, Flushed;
    NextEvent(lines, i, decode);
    OneStep(heard, walks, Finished, walk);
    var events := UpToDone(Events(lines, decode));
    assert events == heard + [Finished];
  }

  lemma RunOut(lines: seq<string>, decode: Decoder, heard: seq<Event>, walks: seq<seq<nat>>, p: Parser, broken: bool)
    requires Reading(lines, |lines|, decode, heard, walks, p)
    ensures Delivers(lines, decode, broken, walks,
                     if broken then Outcome(p.chunks, false) else Outcome(p.chunks + [Done(p.usage)], true))
  {
    hide Walked, After;
    assert lines[|lines|..] == [] && heard + [] == heard;
    assert UpToDone(Events(lines, decode)) == heard;
  }

  lemma NextEvent(lines: seq<string>, i: nat, decode: Decoder)
    requires i < |lines| && HasData(lines[i])
    ensures Events(lines[i..], decode) == [Read(lines[i][|DATA|..], decode)] + Events(lines[i + 1..], decode)
  {
    assert lines[i..][0] == lines[i] && lines[i..][1..] == lines[i + 1..];
  }

  lemma OneStep(events: seq<Event>, walks: seq<seq<nat>>, e: Event, walk: seq<nat>)
    requires Walked(events, walks) && (Flushes(e) ==> Visits(walk, |Heard(After(events, walks), e).parts|))
    ensures Walked(events + [e], walks + [walk])
    ensures After(events + [e], walks + [walk]) == React(After(events, walks), e, walk)
  {
    assert (events + [e])[..|events|] == events && (walks + [walk])[..|events|] == walks;
  }

  // A walk hands over every call once, whatever its order.

  function Completes(parts: seq<ToolCall>): (r: seq<ToolCall>)
    ensures |r| == |parts|
  {
    seq(|parts|, k requires 0 <= k < |parts| => Complete(parts[k]))
  }

  lemma {:induction false} FlushedAppend(parts: seq<ToolCall>, a: seq<nat>, b: seq<nat>)
    ensures Flushed(parts, a + b) == Flushed(parts, a) + Flushed(parts, b)
    decreases |b|
  {
    if b == [] {
      assert a + b == a;
    } else {
      var n := |b| - 1;
      assert (a + b)[..|a| + n] == a + b[..n];
      FlushedAppend(parts, a, b[..n]);
    }
  }

  lemma {:induction false} FlushedIsCalls(parts: seq<ToolCall>, walk: seq<nat>)
    ensures TextOf(Flushed(parts, walk)) == "" && Open(Flushed(parts, walk))
    decreases |walk|
  {
    if walk != [] {
      var n := |walk| - 1;
      FlushedIsCalls(parts, walk[..n]);
      if walk[n] < |parts| {
        OneMore(Flushed(parts, walk[..n]), Tool(Complete(parts[walk[n]])));
      } else {
        assert Flushed(parts, walk) == Flushed(parts, walk[..n]);
      }
    }
  }

  /** Taking one key out of a walk takes one call out of what it hands over. */
  lemma WithoutKey(parts: seq<ToolCall>, walk: seq<nat>, i: nat)
    requires i < |walk| && walk[i] < |parts|
    ensures multiset(CallsOf(Flushed(parts, walk)))
         == multiset(CallsOf(Flushed(parts, walk[..i] + walk[i + 1..]))) + multiset{Complete(parts[walk[i]])}
  {
    hide Flushed, CallsOf;
    var a, b, k := walk[..i], walk[i + 1..], walk[i];
    assert walk == a + [k] + b;
    FlushedAppend(parts, a + [k], b);
    FlushedAppend(parts, a, [k]);
    FlushedAppend(parts, a, b);
    JustOne(parts, k);
    CallsOfAppend(Flushed(parts, a) + [Tool(Complete(parts[k]))], Flushed(parts, b));
    CallsOfAppend(Flushed(parts, a), Flushed(parts, b));
    OneMore(Flushed(parts, a), Tool(Complete(parts[k])));
  }

  lemma JustOne(parts: seq<ToolCall>, k: nat)
    requires k < |parts|
    ensures Flushed(parts, [k]) == [Tool(Complete(parts[k]))]
  {
    assert [k][..0] == [];
  }

  lemma NextNumber(n: nat, k: nat)
    requires n == k + 1
    ensures multiset(Numbers(n)) == multiset(Numbers(k)) + multiset{k}
  {
    hide Numbers;
    var more, numbers := multiset(Numbers(n)), multiset(Numbers(k));
    forall x: nat ensures more[x] == (numbers + multiset{k})[x] {
      assert more[x] == if x in Numbers(n) then 1 else 0;
      assert numbers[x] == if x in Numbers(k) then 1 else 0;
    }
  }

  lemma RemovedAt(walk: seq<nat>, i: nat)
    requires i < |walk|
    ensures multiset(walk) == multiset(walk[..i] + walk[i + 1..]) + multiset{walk[i]}
  {
    assert walk == walk[..i] + [walk[i]] + walk[i + 1..];
  }

  lemma {:induction false} WalkDeliversAll(parts: seq<ToolCall>, walk: seq<nat>, n: nat)
    requires n <= |parts| && multiset(walk) == multiset(Numbers(n))
    ensures multiset(CallsOf(Flushed(parts, walk))) == multiset(Completes(parts[..n]))
    decreases n
  {
    hide Complete, Numbers, Flushed, CallsOf, Completes;
    if n == 0 {
      NothingWalked(parts, walk);
    } else {
      var k: nat := n - 1;
      NextNumber(n, k);
      assert multiset(walk)[k] > 0;
      var i :| 0 <= i < |walk| && walk[i] == k;
      var rest := walk[..i] + walk[i + 1..];
      RemovedAt(walk, i);
      Cancelled(multiset(rest), multiset(Numbers(k)), k);
      WithoutKey(parts, walk, i);
      WalkDeliversAll(parts, rest, k);
      assert parts[..n] == parts[..k] + [parts[k]];
      CompletesAppend(parts[..k], [parts[k]]);
      CompletesOne(parts[k]);
    }
  }

  lemma NothingWalked(parts: seq<ToolCall>, walk: seq<nat>)
    requires multiset(walk) == multiset(Numbers(0))
    ensures CallsOf(Flushed(parts, walk)) == Completes(parts[..0])
  {
    assert |walk| == |multiset(walk)| == 0;
  }

  lemma Cancelled(a: multiset<nat>, b: multiset<nat>, k: nat)
    requires a + multiset{k} == b + multiset{k}
    ensures a == b
  {
    assert a == a + multiset{k} - multiset{k};
    assert b == b + multiset{k} - multiset{k};
  }

  lemma CompletesOne(c: ToolCall)
    ensures Completes([c]) == [Complete(c)]
  {
  }

  lemma CompletesAppend(a: seq<ToolCall>, b: seq<ToolCall>)
    ensures Completes(a + b) == Completes(a) + Completes(b)
  {
  }

  // What a whole stream delivers.

  function Tools(e: Event): seq<Fragment> { if e.Data? && e.choice.Some? then e.choice.value.tools else [] }

  function Content(e: Event): string { if e.Data? && e.choice.Some? then e.choice.value.content else "" }

  /** The calls put together from all the pieces, as if nothing was handed over on the way. */
  function Rebuilt(events: seq<Event>): seq<ToolCall> {
    if events == [] then [] else TakeAll(Rebuilt(events[..|events| - 1]), Tools(events[|events| - 1]))
  }

  function Contents(events: seq<Event>): string {
    if events == [] then "" else Contents(events[..|events| - 1]) + Content(events[|events| - 1])
  }

  /** A call has been started and not handed over. */
  predicate CallOpen(events: seq<Event>) {
    events != [] && (
      var e := events[|events| - 1];
      !Flushes(e) && (CallOpen(events[..|events| - 1]) || exists f :: f in Tools(e) && f.id != ""))
  }

  /** Pieces of a call stand together: none comes when its call has been handed over. */
  predicate Together(events: seq<Event>) {
    events == [] || (
      var front, fs := events[..|events| - 1], Tools(events[|events| - 1]);
      Together(front) && (fs == [] || fs[0].id != "" || CallOpen(front) || Rebuilt(front) == []))
  }

  lemma {:induction false} TakeAllBehind(done: seq<ToolCall>, parts: seq<ToolCall>, fs: seq<Fragment>)
    requires done == [] || parts != [] || fs == [] || fs[0].id != ""
    ensures TakeAll(done + parts, fs) == done + TakeAll(parts, fs)
    ensures TakeAll(parts, fs) != [] <==> parts != [] || exists f :: f in fs && f.id != ""
    decreases |fs|
  {
    if fs != [] {
      var n := |fs| - 1;
      var front, f := fs[..n], fs[n];
      TakeAllBehind(done, parts, front);
      assert fs == front + [f];
      TakeBehind(done, TakeAll(parts, front), f);
    }
  }

  lemma TakeBehind(done: seq<ToolCall>, parts: seq<ToolCall>, f: Fragment)
    requires done == [] || parts != [] || f.id != ""
    ensures Take(done + parts, f) == done + Take(parts, f)
    ensures Take(parts, f) != [] <==> parts != [] || f.id != ""
  {
  }

  lemma TextHeard(p: Parser, e: Event)
    ensures var h := Heard(p, e);
            && TextOf(h.chunks) == TextOf(p.chunks) + Content(e) && CallsOf(h.chunks) == CallsOf(p.chunks)
            && h.parts == TakeAll(p.parts, Tools(e))
  {
    OneMore(p.chunks, Text(Content(e)));
    assert TextOf(p.chunks) + "" == TextOf(p.chunks);
    assert CallsOf(p.chunks) + [] == CallsOf(p.chunks);
  }

  lemma AllFlushed(p: Parser, walk: seq<nat>)
    requires Visits(walk, |p.parts|)
    ensures var chunks := p.chunks + Flushed(p.parts, walk);
            && TextOf(chunks) == TextOf(p.chunks)
            && multiset(CallsOf(chunks)) == multiset(CallsOf(p.chunks)) + multiset(Completes(p.parts))
  {
    hide TextOf, CallsOf, Flushed, Completes;
    FlushedIsCalls(p.parts, walk);
    TextOfAppend(p.chunks, Flushed(p.parts, walk));
    CallsOfAppend(p.chunks, Flushed(p.parts, walk));
    WalkDeliversAll(p.parts, walk, |p.parts|);
    assert p.parts[..|p.parts|] == p.parts;
  }

  /** What the builders collect: all calls in the order they were started, and how many were handed over. */
  datatype Gathered = Gathered(calls: seq<ToolCall>, handed: nat)

  function Gather(events: seq<Event>): (g: Gathered)
    ensures g.handed <= |g.calls|
  {
    if events == [] then Gathered([], 0) else
      var e, g := events[|events| - 1], Gather(events[..|events| - 1]);
      var calls := g.calls[..g.handed] + TakeAll(g.calls[g.handed..], Tools(e));
      Gathered(calls, if Flushes(e) then |calls| else g.handed)
  }

  /** What one event does to the calls collected. */
  lemma GatherStep(events: seq<Event>)
    requires events != []
    ensures var n := |events| - 1;
            var g, g', e := Gather(events[..n]), Gather(events), events[n];
            var parts := TakeAll(g.calls[g.handed..], Tools(e));
            && g'.calls == g.calls[..g.handed] + parts
            && g'.calls[..g'.handed] == (if Flushes(e) then g.calls[..g.handed] + parts else g.calls[..g.handed])
            && g'.calls[g'.handed..] == if Flushes(e) then [] else parts
  {
    hide TakeAll, Tools, Flushes;
  }

  /** Behind any events: the calls handed over were delivered completed, each once; the others are still open. */
  lemma {:induction false} HandedOver(events: seq<Event>, walks: seq<seq<nat>>)
    requires Walked(events, walks)
    ensures var p, g := After(events, walks), Gather(events);
            && p.parts == g.calls[g.handed..]
            && multiset(CallsOf(p.chunks)) == multiset(Completes(g.calls[..g.handed]))
            && TextOf(p.chunks) == Contents(events)
    decreases |events|
  {
    if events == [] {
      assert After(events, walks) == START;
    } else {
      hide Flushed, TakeAll, Visits, Gather, Completes, TextOf, CallsOf, Tools, Content, Heard;
      var n := |events| - 1;
      var e, p, g := events[n], After(events[..n], walks[..n]), Gather(events[..n]);
      HandedOver(events[..n], walks[..n]);
      GatherStep(events);
      TextHeard(p, e);
      if Flushes(e) {
        var h := Heard(p, e);
        AllFlushed(h, walks[n]);
        CompletesAppend(g.calls[..g.handed], h.parts);
      }
    }
  }

  /** When pieces stand together, nothing is lost by handing over on the way. */
  lemma {:induction false} TogetherRebuilds(events: seq<Event>)
    requires Together(events)
    ensures var g := Gather(events);
            g.calls == Rebuilt(events) && (CallOpen(events) <==> g.handed < |g.calls|)
    decreases |events|
  {
    hide TakeAll;
    if events != [] {
      var n := |events| - 1;
      var g := Gather(events[..n]);
      TogetherRebuilds(events[..n]);
      assert g.calls == g.calls[..g.handed] + g.calls[g.handed..];
      TakeAllBehind(g.calls[..g.handed], g.calls[g.handed..], Tools(events[n]));
    }
  }

  // Replies, and the ways to stream their calls.

  /** A call in pieces: the first carries the id and the name, the others directly follow it. */
  function Cut(c: ToolCall, index: nat, pieces: seq<string>): seq<Fragment>
    requires pieces != []
  {
    if |pieces| == 1 then [Fragment(index, c.id, c.name, pieces[0])]
    else Cut(c, index, pieces[..|pieces| - 1]) + [Fragment(index, "", "", pieces[|pieces| - 1])]
  }

  function Glued(pieces: seq<string>): string {
    if pieces == [] then "" else Glued(pieces[..|pieces| - 1]) + pieces[|pieces| - 1]
  }

  predicate CutsOf(cuts: seq<seq<string>>, calls: seq<ToolCall>) {
    |cuts| == |calls| && forall k :: 0 <= k < |calls| ==>
      calls[k].id != "" && cuts[k] != [] && Glued(cuts[k]) == calls[k].arguments
  }

  function CutAll(calls: seq<ToolCall>, cuts: seq<seq<string>>): seq<Fragment>
    requires CutsOf(cuts, calls)
  {
    if calls == [] then [] else
      var n := |calls| - 1; CutAll(calls[..n], cuts[..n]) + Cut(calls[n], n, cuts[n])
  }

  function AllTools(events: seq<Event>): seq<Fragment> {
    if events == [] then [] else AllTools(events[..|events| - 1]) + Tools(events[|events| - 1])
  }

  lemma {:induction false} TakeAllAppend(parts: seq<ToolCall>, a: seq<Fragment>, b: seq<Fragment>)
    ensures TakeAll(parts, a + b) == TakeAll(TakeAll(parts, a), b)
    decreases |b|
  {
    hide Take;
    if b == [] {
      assert a + b == a;
    } else {
      var n := |b| - 1;
      assert (a + b)[..|a| + n] == a + b[..n];
      TakeAllAppend(parts, a, b[..n]);
    }
  }

  lemma {:induction false} RebuiltFromTools(events: seq<Event>)
    ensures Rebuilt(events) == TakeAll([], AllTools(events))
    decreases |events|
  {
    hide TakeAll;
    if events == [] {
      NothingTaken();
    } else {
      RebuiltFromTools(events[..|events| - 1]);
      TakeAllAppend([], AllTools(events[..|events| - 1]), Tools(events[|events| - 1]));
    }
  }

  lemma NothingTaken()
    ensures TakeAll([], []) == []
  {
  }

  lemma {:induction false} CutTaken(parts: seq<ToolCall>, c: ToolCall, index: nat, pieces: seq<string>)
    requires c.id != "" && pieces != []
    ensures TakeAll(parts, Cut(c, index, pieces)) == parts + [c.(arguments := Glued(pieces))]
    decreases |pieces|
  {
    var n := |pieces| - 1;
    assert Cut(c, index, pieces)[..|Cut(c, index, pieces)| - 1] == if n == 0 then [] else Cut(c, index, pieces[..n]);
    if n == 0 {
      assert Glued(pieces[..0]) + pieces[0] == pieces[0];
    } else {
      CutTaken(parts, c, index, pieces[..n]);
    }
  }

  lemma {:induction false} CutsRebuild(calls: seq<ToolCall>, cuts: seq<seq<string>>)
    requires CutsOf(cuts, calls)
    ensures TakeAll([], CutAll(calls, cuts)) == calls
    decreases |calls|
  {
    hide Cut, Glued, TakeAll;
    if calls == [] {
      NothingTaken();
    } else {
      var n := |calls| - 1;
      CutsRebuild(calls[..n], cuts[..n]);
      TakeAllAppend([], CutAll(calls[..n], cuts[..n]), Cut(calls[n], n, cuts[n]));
      CutTaken(calls[..n], calls[n], n, cuts[n]);
      assert calls[n].(arguments := Glued(cuts[n])) == calls[n];
    }
  }

  /**
   A stream that ends with [DONE] delivers every call of the reply once, with its pieces put together, in
   whatever order the maps are walked and wherever "tool_calls" already handed some over. These are the calls
   that `parseResponse` reads, exactly when none has empty arguments.
   */
  lemma CallsDeliveredOnce(events: seq<Event>, walks: seq<seq<nat>>, calls: seq<ToolCall>, cuts: seq<seq<string>>)
    requires Walked(events, walks) && Together(events) && events != [] && events[|events| - 1].Finished?
    requires CutsOf(cuts, calls) && AllTools(events) == CutAll(calls, cuts)
    ensures var chunks := After(events, walks).chunks;
            && multiset(CallsOf(chunks)) == multiset(Completes(calls))
            && TextOf(chunks) == Contents(events)
            && (multiset(CallsOf(chunks)) == multiset(calls) <==> forall c :: c in calls ==> c.arguments != "")
  {
    hide After, Together, CallOpen, TakeAll, CutAll, CutsOf, TextOf, CallsOf;
    HandedOver(events, walks);
    TogetherRebuilds(events);
    RebuiltFromTools(events);
    CutsRebuild(calls, cuts);
    var g := Gather(events);
    assert g.handed == |g.calls| && g.calls[..|g.calls|] == g.calls;
    SameUnlessEmpty(calls);
  }

  lemma SameUnlessEmpty(calls: seq<ToolCall>)
    ensures multiset(Completes(calls)) == multiset(calls) <==> forall c :: c in calls ==> c.arguments != ""
  {
    if forall c :: c in calls ==> c.arguments != "" {
      assert forall k :: 0 <= k < |calls| ==> calls[k] in calls;
      assert Completes(calls) == calls;
    } else {
      var c :| c in calls && c.arguments == "";
      assert c in multiset(calls);
      assert c !in Completes(calls);
    }
  }

  // Putting calls together by the index on the wire.

  /** The calls in the order they were started, and the index of each. */
  datatype Reassembly = Reassembly(calls: seq<ToolCall>, indices: seq<nat>) {
    predicate Valid() { |indices| == |calls| }
  }

  /** The call that an index stands for: the last one started with it. */
  function Latest(indices: seq<nat>, index: nat): (p: int)
    ensures -1 <= p < |indices|
  {
    if indices == [] then -1
    else if indices[|indices| - 1] == index then |indices| - 1
    else Latest(indices[..|indices| - 1], index)
  }

  function Extend(calls: seq<ToolCall>, p: nat, args: string): seq<ToolCall>
    requires p < |calls|
  {
    calls[p := calls[p].(arguments := calls[p].arguments + args)]
  }

  function Add(r: Reassembly, f: Fragment): (r': Reassembly)
    requires r.Valid()
    ensures r'.Valid()
  {
    var p := Latest(r.indices, f.index);
    if f.id != "" then Reassembly(r.calls + [ToolCall(f.id, f.name, f.args)], r.indices + [f.index])
    else if p >= 0 then r.(calls := Extend(r.calls, p, f.args))
    else r
  }

  function AddAll(r: Reassembly, fs: seq<Fragment>): (r': Reassembly)
    requires r.Valid()
    ensures r'.Valid()
  {
    if fs == [] then r else Add(AddAll(r, fs[..|fs| - 1]), fs[|fs| - 1])
  }

  function Reassemble(events: seq<Event>): (r: Reassembly)
    ensures r.Valid()
  {
    if events == [] then Reassembly([], [])
    else AddAll(Reassemble(events[..|events| - 1]), Tools(events[|events| - 1]))
  }

  predicate Continues(f: Fragment) { f.id == "" && f.args != "" }

  /** A piece that continues a call has the index of one. */
  predicate IndexedAll(r: Reassembly, fs: seq<Fragment>)
    requires r.Valid()
  {
    fs == [] || (
      var front, f := fs[..|fs| - 1], fs[|fs| - 1];
      IndexedAll(r, front) && (Continues(f) ==> Latest(AddAll(r, front).indices, f.index) >= 0))
  }

  predicate Indexed(events: seq<Event>) {
    events == [] || (
      var front, e := events[..|events| - 1], events[|events| - 1];
      Indexed(front) && IndexedAll(Reassemble(front), Tools(e)))
  }

  /** A piece that continues a call continues the one started last, and that one is still open. */
  predicate StraightAll(open: seq<ToolCall>, r: Reassembly, fs: seq<Fragment>)
    requires r.Valid()
  {
    fs == [] || (
      var front, f := fs[..|fs| - 1], fs[|fs| - 1];
      && StraightAll(open, r, front)
      && (Continues(f) ==>
            TakeAll(open, front) != []
            && Latest(AddAll(r, front).indices, f.index) == |AddAll(r, front).calls| - 1))
  }

  function OpenCalls(events: seq<Event>): seq<ToolCall> { Gather(events).calls[Gather(events).handed..] }

  predicate Straight(events: seq<Event>) {
    events == [] || (
      var front, e := events[..|events| - 1], events[|events| - 1];
      Straight(front) && StraightAll(OpenCalls(front), Reassemble(front), Tools(e)))
  }

  predicate SameHeads(a: seq<ToolCall>, b: seq<ToolCall>) {
    |a| == |b| && forall i :: 0 <= i < |a| ==> a[i].id == b[i].id && a[i].name == b[i].name
  }

  // A piece that goes astray goes to a later call or to none: weighed so that earlier calls count more, it is missed.

  function Weight(calls: seq<ToolCall>, n: int): int {
    if calls == [] then 0 else
      var last := |calls| - 1;
      Weight(calls[..last], n) + (n - last) * |calls[last].arguments|
  }

  lemma {:induction false} WeightMore(calls: seq<ToolCall>, n: int, p: nat, args: string)
    requires p < |calls|
    ensures Weight(Extend(calls, p, args), n) == Weight(calls, n) + (n - p) * |args|
    decreases |calls|
  {
    var last := |calls| - 1;
    var more := Extend(calls, p, args);
    if p == last {
      assert more[..last] == calls[..last];
      assert (n - p) * (|calls[p].arguments| + |args|) == (n - p) * |calls[p].arguments| + (n - p) * |args|;
    } else {
      WeightMore(calls[..last], n, p, args);
      assert more[..last] == Extend(calls[..last], p, args);
    }
  }

  lemma Lighter(a: int, b: int, k: nat)
    requires a <= b
    ensures a * k <= b * k && (a < b && k > 0 ==> a * k < b * k)
  {
  }

  ghost predicate Weighs(given: seq<ToolCall>, r: Reassembly, n: int)
    requires r.Valid()
  {
    SameHeads(given, r.calls) && Weight(given, n) <= Weight(r.calls, n)
  }

  lemma OneWeighed(done: seq<ToolCall>, open: seq<ToolCall>, r: Reassembly, f: Fragment, n: int)
    requires r.Valid() && Weighs(done + open, r, n) && |Add(r, f).calls| <= n
    requires Continues(f) ==> Latest(r.indices, f.index) >= 0
    ensures var given, r' := done + Take(open, f), Add(r, f);
            var straight := Continues(f) ==> open != [] && Latest(r.indices, f.index) == |r.calls| - 1;
            && Weighs(given, r', n)
            && (Weight(given, n) == Weight(r'.calls, n) ==> Weight(done + open, n) == Weight(r.calls, n) && straight)
            && (done + open == r.calls && straight ==> given == r'.calls)
  {
    hide Weight;
    var all, last := done + open, |r.calls| - 1;
    if f.id != "" {
      var c := ToolCall(f.id, f.name, f.args);
      assert done + Take(open, f) == all + [c];
      WeightNext(all, c, n);
      WeightNext(r.calls, c, n);
    } else {
      var p := Latest(r.indices, f.index);
      if p >= 0 {
        WeightMore(r.calls, n, p, f.args);
        Lighter(0, n - p, |f.args|);
      }
      if open != [] {
        assert done + Take(open, f) == Extend(all, last, f.args);
        WeightMore(all, n, last, f.args);
        if p >= 0 {
          Lighter(n - last, n - p, |f.args|);
        }
      }
      if f.args == "" {
        Nothing(done, open, r, f);
      }
    }
  }

  lemma Nothing(done: seq<ToolCall>, open: seq<ToolCall>, r: Reassembly, f: Fragment)
    requires r.Valid() && f.id == "" && f.args == ""
    ensures Take(open, f) == open && Add(r, f) == r
  {
    var p := Latest(r.indices, f.index);
    if p >= 0 {
      assert r.calls[p].arguments + "" == r.calls[p].arguments;
    }
    if open != [] {
      assert open[|open| - 1].arguments + "" == open[|open| - 1].arguments;
    }
  }

  lemma WeightNext(calls: seq<ToolCall>, c: ToolCall, n: int)
    ensures Weight(calls + [c], n) == Weight(calls, n) + (n - |calls|) * |c.arguments|
  {
    assert (calls + [c])[..|calls|] == calls;
  }

  lemma {:induction false} AddAllGrows(r: Reassembly, fs: seq<Fragment>)
    requires r.Valid()
    ensures |r.calls| <= |AddAll(r, fs).calls|
    decreases |fs|
  {
    if fs != [] {
      AddAllGrows(r, fs[..|fs| - 1]);
    }
  }

  lemma {:induction false} AllWeighed(done: seq<ToolCall>, open: seq<ToolCall>, r: Reassembly, fs: seq<Fragment>, n: int)
    requires r.Valid() && Weighs(done + open, r, n) && |AddAll(r, fs).calls| <= n && IndexedAll(r, fs)
    ensures var given, r' := done + TakeAll(open, fs), AddAll(r, fs);
            && Weighs(given, r', n)
            && (Weight(given, n) == Weight(r'.calls, n) ==>
                  Weight(done + open, n) == Weight(r.calls, n) && StraightAll(open, r, fs))
            && (done + open == r.calls && StraightAll(open, r, fs) ==> given == r'.calls)
    decreases |fs|
  {
    hide Weighs, Weight, Add, Take, Latest;
    if fs != [] {
      var front, f := fs[..|fs| - 1], fs[|fs| - 1];
      AddAllGrows(AddAll(r, front), [f]);
      OneAdded(AddAll(r, front), f);
      AllWeighed(done, open, r, front, n);
      OneWeighed(done, TakeAll(open, front), AddAll(r, front), f, n);
    }
  }

  lemma OneAdded(r: Reassembly, f: Fragment)
    requires r.Valid()
    ensures |r.calls| <= |Add(r, f).calls|
  {
  }

  lemma {:induction false} EventsWeighed(events: seq<Event>, n: int)
    requires Indexed(events) && |Reassemble(events).calls| <= n
    ensures var given, r := Gather(events).calls, Reassemble(events);
            && Weighs(given, r, n)
            && (Weight(given, n) == Weight(r.calls, n) ==> Straight(events))
            && (Straight(events) ==> given == r.calls)
    decreases |events|
  {
    hide Weighs, Weight, TakeAll, StraightAll, IndexedAll, AddAll;
    if events == [] {
      NothingWeighed(n);
    } else {
      var front, fs := events[..|events| - 1], Tools(events[|events| - 1]);
      var g := Gather(front);
      AddAllGrows(Reassemble(front), fs);
      EventsWeighed(front, n);
      assert g.calls == g.calls[..g.handed] + g.calls[g.handed..];
      AllWeighed(g.calls[..g.handed], g.calls[g.handed..], Reassemble(front), fs, n);
    }
  }

  lemma NothingWeighed(n: int)
    ensures Weighs([], Reassembly([], []), n)
  {
  }

  /**
   The arguments collected for every call are those that its index asks for, exactly when every piece that continues
   a call continues the one started last, before that one is handed over.
   */
  lemma CollectedByIndex(events: seq<Event>)
    requires Indexed(events)
    ensures Gather(events).calls == Reassemble(events).calls <==> Straight(events)
  {
    EventsWeighed(events, |Reassemble(events).calls|);
  }

  predicate DistinctIds(calls: seq<ToolCall>) {
    forall i, j :: 0 <= i < j < |calls| ==> calls[i].id != calls[j].id
  }

  /** Calls with the same ids in the same places are the same calls when they are the same in some order. */
  lemma SameInPlace(a: seq<ToolCall>, b: seq<ToolCall>)
    requires SameHeads(a, b) && DistinctIds(b) && multiset(a) == multiset(b)
    ensures a == b
  {
    forall i | 0 <= i < |a| ensures a[i] == b[i] {
      assert a[i] in multiset(b);
      var j :| 0 <= j < |b| && b[j] == a[i];
      assert b[j].id == b[i].id;
    }
  }

  lemma {:induction false} LongerWeighsMore(a: seq<ToolCall>, b: seq<ToolCall>, n: int)
    requires |a| == |b| <= n && forall i :: 0 <= i < |a| ==> |a[i].arguments| <= |b[i].arguments|
    ensures Weight(a, n) <= Weight(b, n)
    decreases |a|
  {
    if a != [] {
      var last := |a| - 1;
      LongerWeighsMore(a[..last], b[..last], n);
      Lighter2(n - last, |a[last].arguments|, |b[last].arguments|);
    }
  }

  lemma Lighter2(k: int, a: nat, b: nat)
    requires a <= b && k >= 0
    ensures k * a <= k * b
  {
  }

  /**
   So a stream that ends with [DONE] delivers every call with the arguments its index asks for if every continuing
   piece is straight; and only if, for calls with different ids of which none has the arguments `{}`.
   */
  lemma DeliveredByIndex(events: seq<Event>, walks: seq<seq<nat>>)
    requires Walked(events, walks) && Indexed(events) && events != [] && events[|events| - 1].Finished?
    ensures var delivered, calls := multiset(CallsOf(After(events, walks).chunks)), Reassemble(events).calls;
            && (Straight(events) ==> delivered == multiset(Completes(calls)))
            && (DistinctIds(calls) && (forall c :: c in calls ==> c.arguments != "{}") ==>
                  (delivered == multiset(Completes(calls)) <==> Straight(events)))
  {
    hide After, CallsOf, Walked, Straight, Indexed, Reassemble, Weight, Completes, DistinctIds;
    HandedOver(events, walks);
    var g, r := Gather(events), Reassemble(events);
    EventsWeighed(events, |r.calls|);
    assert g.handed == |g.calls| && g.calls[..|g.calls|] == g.calls;
    if DistinctIds(r.calls) && (forall c :: c in r.calls ==> c.arguments != "{}")
       && multiset(Completes(g.calls)) == multiset(Completes(r.calls))
    {
      forall i | 0 <= i < |r.calls| ensures r.calls[i].arguments != "{}" {
        assert r.calls[i] in r.calls;
      }
      CompletedAlike(g.calls, r.calls);
    }
  }

  lemma CompletedAlike(given: seq<ToolCall>, meant: seq<ToolCall>)
    requires SameHeads(given, meant) && DistinctIds(meant) && multiset(Completes(given)) == multiset(Completes(meant))
    requires forall i :: 0 <= i < |meant| ==> !(meant[i].arguments == "{}" && given[i].arguments == "")
    ensures Weight(meant, |meant|) <= Weight(given, |meant|)
  {
    hide Weight;
    SameInPlace(Completes(given), Completes(meant));
    forall i | 0 <= i < |meant| ensures |meant[i].arguments| <= |given[i].arguments| {
      assert Completes(given)[i] == Completes(meant)[i];
    }
    LongerWeighsMore(meant, given, |meant|);
  }

  predicate Trivial(c: ToolCall) { c.arguments == "" || c.arguments == "{}" }

  /**
   For calls with different ids the stream delivers what the indices ask for exactly when every call has collected
   the arguments meant for it, or both are empty or `{}`; and a stray piece can go unnoticed only if the whole of a
   call's arguments, `{}`, has strayed.
   */
  lemma DeliveredRight(events: seq<Event>, walks: seq<seq<nat>>)
    requires Walked(events, walks) && Indexed(events) && events != [] && events[|events| - 1].Finished?
    requires DistinctIds(Reassemble(events).calls)
    ensures var delivered := multiset(CallsOf(After(events, walks).chunks));
            var given, meant := Gather(events).calls, Reassemble(events).calls;
            && |given| == |meant|
            && (delivered == multiset(Completes(meant)) <==>
                  forall i :: 0 <= i < |meant| ==> given[i] == meant[i] || (Trivial(given[i]) && Trivial(meant[i])))
            && (delivered == multiset(Completes(meant)) && !Straight(events) ==>
                  exists i :: 0 <= i < |meant| && meant[i].arguments == "{}" && given[i].arguments == "")
  {
    hide After, CallsOf, Walked, Straight, Indexed, Reassemble, Weight, Completes, DistinctIds;
    HandedOver(events, walks);
    var g, r := Gather(events), Reassemble(events);
    EventsWeighed(events, |r.calls|);
    assert g.handed == |g.calls| && g.calls[..|g.calls|] == g.calls;
    if multiset(Completes(g.calls)) == multiset(Completes(r.calls)) {
      SameCompleted(g.calls, r.calls);
      if !Straight(events) && forall i :: 0 <= i < |r.calls| ==> !(r.calls[i].arguments == "{}" && g.calls[i].arguments == "") {
        CompletedAlike(g.calls, r.calls);
      }
    }
    if forall i :: 0 <= i < |r.calls| ==> g.calls[i] == r.calls[i] || (Trivial(g.calls[i]) && Trivial(r.calls[i])) {
      CompletedTheSame(g.calls, r.calls);
    }
  }

  lemma SameCompleted(given: seq<ToolCall>, meant: seq<ToolCall>)
    requires SameHeads(given, meant) && DistinctIds(meant) && multiset(Completes(given)) == multiset(Completes(meant))
    ensures forall i :: 0 <= i < |meant| ==> given[i] == meant[i] || (Trivial(given[i]) && Trivial(meant[i]))
  {
    SameInPlace(Completes(given), Completes(meant));
    forall i | 0 <= i < |meant| ensures given[i] == meant[i] || (Trivial(given[i]) && Trivial(meant[i])) {
      assert Completes(given)[i] == Completes(meant)[i];
    }
  }

  lemma CompletedTheSame(given: seq<ToolCall>, meant: seq<ToolCall>)
    requires SameHeads(given, meant)
    requires forall i :: 0 <= i < |meant| ==> given[i] == meant[i] || (Trivial(given[i]) && Trivial(meant[i]))
    ensures Completes(given) == Completes(meant)
  {
  }

  /** A piece for the first of two open calls goes to the second, and what is delivered is not what the indices ask for. */
  lemma Alternating(events: seq<Event>, walks: seq<seq<nat>>)
    requires var fs := [Fragment(0, "a", "f", ""), Fragment(1, "b", "g", ""), Fragment(0, "", "", "x")];
             events == [Data(None, Some(Choice("", fs, None))), Finished]
    requires Walked(events, walks)
    ensures Indexed(events) && !Straight(events)
    ensures Reassemble(events).calls == [ToolCall("a", "f", "x"), ToolCall("b", "g", "")]
    ensures multiset(CallsOf(After(events, walks).chunks)) != multiset(Completes(Reassemble(events).calls))
  {
    var f0, f1, f2 := Fragment(0, "a", "f", ""), Fragment(1, "b", "g", ""), Fragment(0, "", "", "x");
    TwoCalls(events, f2);
    hide After, CallsOf, Walked, Straight, Indexed, Reassemble, Completes, Gather;
    DeliveredByIndex(events, walks);
    AandB();
  }

  /** With `{}` for that piece the result is right all the same: empty arguments become `{}` too. */
  lemma AlternatingEmptyObject(events: seq<Event>, walks: seq<seq<nat>>)
    requires var fs := [Fragment(0, "a", "f", ""), Fragment(1, "b", "g", ""), Fragment(0, "", "", "{}")];
             events == [Data(None, Some(Choice("", fs, None))), Finished]
    requires Walked(events, walks)
    ensures Indexed(events) && !Straight(events)
    ensures multiset(CallsOf(After(events, walks).chunks)) == multiset(Completes(Reassemble(events).calls))
  {
    var f2 := Fragment(0, "", "", "{}");
    TwoCalls(events, f2);
    hide After, CallsOf, Walked, Straight, Indexed, Reassemble, Gather, Completes;
    HandedOver(events, walks);
    var a, b := ToolCall("a", "f", ""), ToolCall("b", "g", "{}");
    assert [a, b][..2] == [a, b];
    BothComplete();
  }

  lemma AandB()
    ensures var calls := [ToolCall("a", "f", "x"), ToolCall("b", "g", "")];
            DistinctIds(calls) && forall c :: c in calls ==> c.arguments != "{}"
  {
  }

  lemma BothComplete()
    ensures Completes([ToolCall("a", "f", ""), ToolCall("b", "g", "{}")])
         == Completes([ToolCall("a", "f", "{}"), ToolCall("b", "g", "")])
  {
  }

  /** Two calls started one after the other, and then a piece for the first. */
  lemma TwoCalls(events: seq<Event>, f: Fragment)
    requires f.index == 0 && Continues(f)
    requires var fs := [Fragment(0, "a", "f", ""), Fragment(1, "b", "g", ""), f];
             events == [Data(None, Some(Choice("", fs, None))), Finished]
    ensures Indexed(events) && !Straight(events)
    ensures Gather(events) == Gathered([ToolCall("a", "f", ""), ToolCall("b", "g", f.args)], 2)
    ensures Reassemble(events).calls == [ToolCall("a", "f", f.args), ToolCall("b", "g", "")]
  {
    var f0, f1 := Fragment(0, "a", "f", ""), Fragment(1, "b", "g", "");
    var none := Reassembly([], []);
    hide Indexed, Straight, Gather, Reassemble, TakeAll, AddAll, IndexedAll, StraightAll, Take, Add;
    ThreeTaken(f0, f1, f);
    ThenDone(events, [f0, f1, f]);
    TakenToLast(f);
    AddedToFirst(f);
  }

  lemma TakenToLast(f: Fragment)
    requires Continues(f)
    ensures var f0, f1 := Fragment(0, "a", "f", ""), Fragment(1, "b", "g", "");
            Take(Take(Take([], f0), f1), f) == [ToolCall("a", "f", ""), ToolCall("b", "g", f.args)]
  {
    var f0, f1 := Fragment(0, "a", "f", ""), Fragment(1, "b", "g", "");
    var a, b := ToolCall("a", "f", ""), ToolCall("b", "g", "");
    assert Take([], f0) == [a];
    assert Take([a], f1) == [a, b];
    assert "" + f.args == f.args;
  }

  lemma AddedToFirst(f: Fragment)
    requires Continues(f) && f.index == 0
    ensures var f0, f1 := Fragment(0, "a", "f", ""), Fragment(1, "b", "g", "");
            var two := Add(Add(Reassembly([], []), f0), f1);
            && two.calls == [ToolCall("a", "f", ""), ToolCall("b", "g", "")]
            && Latest(two.indices, 0) == 0
            && Add(two, f).calls == [ToolCall("a", "f", f.args), ToolCall("b", "g", "")]
            && !Continues(f0) && !Continues(f1)
  {
    var f0, f1 := Fragment(0, "a", "f", ""), Fragment(1, "b", "g", "");
    var a, b := ToolCall("a", "f", ""), ToolCall("b", "g", "");
    assert Add(Reassembly([], []), f0) == Reassembly([a], [0]);
    assert Add(Reassembly([a], [0]), f1) == Reassembly([a, b], [0, 1]);
    LatestOfTwo();
    assert "" + f.args == f.args;
  }

  lemma LatestOfTwo()
    ensures Latest([0, 1], 0) == 0
  {
    assert [0, 1][..1] == [0];
  }

  /** A stream of one event that hands nothing over, and [DONE]. */
  lemma ThenDone(events: seq<Event>, fs: seq<Fragment>)
    requires events == [Data(None, Some(Choice("", fs, None))), Finished]
    ensures var none := Reassembly([], []);
            && Gather(events) == Gathered(TakeAll([], fs), |TakeAll([], fs)|)
            && Reassemble(events) == AddAll(none, fs)
            && (Indexed(events) <==> IndexedAll(none, fs))
            && (Straight(events) ==> StraightAll([], none, fs))
            && (AllAlike(events) ==> Alike(TakeAll([], fs)))
  {
    hide TakeAll, AddAll, IndexedAll, StraightAll, Alike;
    var e, none := events[0], Reassembly([], []);
    assert events[..1] == [e] && Tools(e) == fs && Tools(Finished) == [] && !Flushes(e);
    OnlyEvent(e);
    NothingAdded(TakeAll([], fs), AddAll(none, fs));
    assert OpenCalls([e]) == TakeAll([], fs);
    assert Gather([e]).calls[..0] + TakeAll([], fs) == TakeAll([], fs);
  }

  lemma OnlyEvent(e: Event)
    requires !Flushes(e)
    ensures var none := Reassembly([], []);
            && Gather([e]) == Gathered(TakeAll([], Tools(e)), 0) && Reassemble([e]) == AddAll(none, Tools(e))
            && (Indexed([e]) <==> IndexedAll(none, Tools(e))) && (Straight([e]) <==> StraightAll([], none, Tools(e)))
  {
    hide TakeAll, AddAll, IndexedAll, StraightAll;
    var none: seq<Event> := [];
    assert [e][..0] == none;
    assert OpenCalls(none) == [] && Gather(none) == Gathered([], 0) && Reassemble(none) == Reassembly([], []);
    assert Indexed(none) && Straight(none);
    var taken := TakeAll([], Tools(e));
    assert [] + taken == taken;
  }

  lemma NothingAdded(open: seq<ToolCall>, r: Reassembly)
    requires r.Valid()
    ensures TakeAll(open, []) == open && AddAll(r, []) == r && IndexedAll(r, []) && StraightAll(open, r, [])
  {
  }

  lemma OneMoreFragment(open: seq<ToolCall>, r: Reassembly, fs: seq<Fragment>, f: Fragment)
    requires r.Valid()
    ensures TakeAll(open, fs + [f]) == Take(TakeAll(open, fs), f)
    ensures AddAll(r, fs + [f]) == Add(AddAll(r, fs), f)
    ensures IndexedAll(r, fs + [f]) <==>
              IndexedAll(r, fs) && (Continues(f) ==> Latest(AddAll(r, fs).indices, f.index) >= 0)
    ensures StraightAll(open, r, fs + [f]) && Continues(f) ==>
              Latest(AddAll(r, fs).indices, f.index) == |AddAll(r, fs).calls| - 1
  {
    assert (fs + [f])[..|fs|] == fs;
  }

  lemma ThreeTaken(a: Fragment, b: Fragment, c: Fragment)
    ensures TakeAll([], [a, b, c]) == Take(Take(Take([], a), b), c)
    ensures var none := Reassembly([], []);
            && AddAll(none, [a, b]) == Add(Add(none, a), b)
            && AddAll(none, [a, b, c]) == Add(Add(Add(none, a), b), c)
            && (StraightAll([], none, [a, b, c]) && Continues(c) ==>
                  Latest(Add(Add(none, a), b).indices, c.index) == |Add(Add(none, a), b).calls| - 1)
            && (IndexedAll(none, [a, b, c]) <==>
                  && (Continues(a) ==> Latest(none.indices, a.index) >= 0)
                  && (Continues(b) ==> Latest(Add(none, a).indices, b.index) >= 0)
                  && (Continues(c) ==> Latest(Add(Add(none, a), b).indices, c.index) >= 0))
  {
    var none := Reassembly([], []);
    assert TakeAll([], []) == [] && AddAll(none, []) == none && IndexedAll(none, []);
    hide Take, Add, Latest, TakeAll, AddAll, IndexedAll, StraightAll, Continues;
    OneMoreFragment([], none, [], a);
    OneMoreFragment([], none, [a], b);
    OneMoreFragment([], none, [a, b], c);
    assert [] + [a] == [a] && [a] + [b] == [a, b] && [a, b] + [c] == [a, b, c];
  }

  // The order of the calls.

  predicate Alike(parts: seq<ToolCall>) {
    forall i, j :: 0 <= i < j < |parts| ==> Complete(parts[i]) == Complete(parts[j])
  }

  /** The calls open when an event comes, with its own pieces. */
  function OpenWith(front: seq<Event>, e: Event): seq<ToolCall> { TakeAll(OpenCalls(front), Tools(e)) }

  /** No walk ever meets two different calls. */
  predicate AllAlike(events: seq<Event>) {
    events == [] || (
      var front, e := events[..|events| - 1], events[|events| - 1];
      AllAlike(front) && (Flushes(e) ==> Alike(OpenWith(front, e))))
  }

  /** The calls handed over, completed, in the order they were started. */
  function InOrder(events: seq<Event>): seq<ToolCall> { Completes(Gather(events).calls[..Gather(events).handed]) }

  ghost predicate AlwaysInOrder(events: seq<Event>) {
    forall walks :: Walked(events, walks) ==> CallsOf(After(events, walks).chunks) == InOrder(events)
  }

  function Chosen(parts: seq<ToolCall>, walk: seq<nat>): (calls: seq<ToolCall>)
    requires forall k :: 0 <= k < |walk| ==> walk[k] < |parts|
    ensures |calls| == |walk|
  {
    seq(|walk|, k requires 0 <= k < |walk| => Complete(parts[walk[k]]))
  }

  lemma {:induction false} Picked(parts: seq<ToolCall>, walk: seq<nat>)
    requires forall k :: 0 <= k < |walk| ==> walk[k] < |parts|
    ensures CallsOf(Flushed(parts, walk)) == Chosen(parts, walk)
    decreases |walk|
  {
    hide CallsOf, Complete, Flushed;
    if walk == [] {
      NoCalls(parts);
    } else {
      var n := |walk| - 1;
      Picked(parts, walk[..n]);
      LastFlushed(parts, walk);
      OneMore(Flushed(parts, walk[..n]), Tool(Complete(parts[walk[n]])));
      assert Chosen(parts, walk) == Chosen(parts, walk[..n]) + [Complete(parts[walk[n]])];
    }
  }

  lemma LastFlushed(parts: seq<ToolCall>, walk: seq<nat>)
    requires walk != [] && walk[|walk| - 1] < |parts|
    ensures Flushed(parts, walk) == Flushed(parts, walk[..|walk| - 1]) + [Tool(Complete(parts[walk[|walk| - 1]]))]
  {
  }

  lemma NoCalls(parts: seq<ToolCall>)
    ensures CallsOf(Flushed(parts, [])) == []
  {
  }

  lemma WalkRange(walk: seq<nat>, n: nat)
    requires Visits(walk, n)
    ensures |walk| == n && forall k :: 0 <= k < n ==> walk[k] < n
  {
    assert |walk| == |multiset(walk)|;
    forall k | 0 <= k < n ensures walk[k] < n {
      assert walk[k] in multiset(walk);
    }
  }

  lemma AlikeWalk(parts: seq<ToolCall>, walk: seq<nat>)
    requires Visits(walk, |parts|) && Alike(parts)
    ensures CallsOf(Flushed(parts, walk)) == Completes(parts)
  {
    hide Visits, Complete, CallsOf, Flushed;
    WalkRange(walk, |parts|);
    Picked(parts, walk);
    assert Chosen(parts, walk) == Completes(parts);
  }

  /** What one event adds to the calls delivered. */
  lemma OneEvent(events: seq<Event>, walks: seq<seq<nat>>)
    requires Walked(events, walks) && events != []
    ensures var n := |events| - 1;
            var front, e, parts := events[..n], events[n], OpenWith(events[..n], events[n]);
            && Walked(front, walks[..n])
            && (Flushes(e) ==> Visits(walks[n], |parts|))
            && CallsOf(After(events, walks).chunks) == CallsOf(After(front, walks[..n]).chunks)
               + (if Flushes(e) then CallsOf(Flushed(parts, walks[n])) else [])
            && InOrder(events) == InOrder(front) + (if Flushes(e) then Completes(parts) else [])
  {
    hide Flushed, TakeAll, Visits, CallsOf;
    var n := |events| - 1;
    var p, g, parts := After(events[..n], walks[..n]), Gather(events[..n]), OpenWith(events[..n], events[n]);
    HandedOver(events[..n], walks[..n]);
    TextHeard(p, events[n]);
    var h := Heard(p, events[n]);
    CallsOfAppend(h.chunks, Flushed(h.parts, walks[n]));
    var handed := g.calls[..g.handed];
    CompletesAppend(handed, parts);
    assert (handed + parts)[..|handed + parts|] == handed + parts && (handed + parts)[..g.handed] == handed;
    assert CallsOf(p.chunks) + [] == CallsOf(p.chunks) && InOrder(events[..n]) + [] == InOrder(events[..n]);
  }

  lemma {:induction false} AlikeInOrder(events: seq<Event>, walks: seq<seq<nat>>)
    requires Walked(events, walks) && AllAlike(events)
    ensures CallsOf(After(events, walks).chunks) == InOrder(events)
    decreases |events|
  {
    if events != [] {
      hide After, Walked, InOrder, Flushed, CallsOf, Visits, Complete, Completes, Alike, OpenWith, Flushes;
      var n := |events| - 1;
      OneEvent(events, walks);
      AlikeInOrder(events[..n], walks[..n]);
      if Flushes(events[n]) {
        AlikeWalk(OpenWith(events[..n], events[n]), walks[n]);
      }
    }
  }

  function Counting(n: nat): (walk: seq<nat>)
    ensures |walk| == n && forall k :: 0 <= k < n ==> walk[k] == k
  {
    seq(n, k requires 0 <= k < n => k)
  }

  lemma {:induction false} CountingVisits(n: nat)
    ensures Visits(Counting(n), n)
    decreases n
  {
    hide Numbers;
    if n == 0 {
      NoNumbers();
    } else {
      var k: nat := n - 1;
      CountingVisits(k);
      assert Counting(n) == Counting(k) + [k];
      NextNumber(n, k);
    }
  }

  lemma NoNumbers()
    ensures Visits(Counting(0), 0)
  {
  }

  lemma SwappedVisits(n: nat, i: nat, j: nat)
    requires i < j < n
    ensures Visits(Counting(n)[i := j][j := i], n)
  {
    CountingVisits(n);
    var c: seq<nat> := Counting(n);
    var d: seq<nat> := c[i := j];
    var e: seq<nat> := d[j := i];
    var m: multiset<nat> := multiset(c);
    assert c[i] in c && m[i] > 0;
    assert multiset(d) == m - multiset{i} + multiset{j};
    assert multiset(e) == multiset(d) - multiset{j} + multiset{i};
  }

  /** A walk for one more event, and the calls it delivers. */
  lemma WalkOnce(events: seq<Event>, walks: seq<seq<nat>>, walk: seq<nat>)
    requires events != [] && Walked(events[..|events| - 1], walks)
    requires Flushes(events[|events| - 1]) ==> Visits(walk, |OpenWith(events[..|events| - 1], events[|events| - 1])|)
    ensures Walked(events, walks + [walk])
  {
    hide Visits, Flushed, TakeAll, CallsOf, TextOf, Completes;
    var n := |events| - 1;
    HandedOver(events[..n], walks);
    TextHeard(After(events[..n], walks), events[n]);
    OneStep(events[..n], walks, events[n], walk);
    assert events == events[..n] + [events[n]];
  }

  /** Walking every map in the order of its keys delivers the calls in order. */
  lemma {:induction false} WalksInOrder(events: seq<Event>) returns (walks: seq<seq<nat>>)
    ensures Walked(events, walks) && CallsOf(After(events, walks).chunks) == InOrder(events)
    decreases |events|
  {
    if events == [] {
      return [];
    }
    hide Walked, Visits, OpenWith, After, InOrder, CallsOf, Flushed, Complete, Flushes;
    var n := |events| - 1;
    walks := WalksInOrder(events[..n]);
    var parts := OpenWith(events[..n], events[n]);
    var walk := Counting(|parts|);
    CountingVisits(|parts|);
    Picked(parts, walk);
    assert Chosen(parts, walk) == Completes(parts);
    WalkOnce(events, walks, walk);
    OneEvent(events, walks + [walk]);
    assert (walks + [walk])[..n] == walks;
    walks := walks + [walk];
  }

  lemma SameLength(events: seq<Event>, walks: seq<seq<nat>>)
    requires Walked(events, walks)
    ensures |CallsOf(After(events, walks).chunks)| == |InOrder(events)|
  {
    hide After, Walked, CallsOf;
    HandedOver(events, walks);
    var calls := CallsOf(After(events, walks).chunks);
    assert |calls| == |multiset(calls)| && |InOrder(events)| == |multiset(InOrder(events))|;
  }

  /** If some walk meets two different calls, it may deliver them in the other order. */
  lemma {:induction false} OutOfOrder(events: seq<Event>) returns (walks: seq<seq<nat>>)
    requires !AllAlike(events)
    ensures Walked(events, walks) && CallsOf(After(events, walks).chunks) != InOrder(events)
    decreases |events|
  {
    hide Walked, After, InOrder, Flushed, CallsOf, Visits, Complete, OpenWith, Flushes;
    var n := |events| - 1;
    var front, e, parts := events[..n], events[n], OpenWith(events[..n], events[n]);
    var walk;
    if AllAlike(front) {
      walks := WalksInOrder(front);
      var i, j :| 0 <= i < j < |parts| && Complete(parts[i]) != Complete(parts[j]);
      walk := Counting(|parts|)[i := j][j := i];
      SwappedVisits(|parts|, i, j);
      WalkRange(walk, |parts|);
      Picked(parts, walk);
      assert Chosen(parts, walk)[i] == Complete(parts[j]) && Completes(parts)[i] == Complete(parts[i]);
    } else {
      walks := OutOfOrder(front);
      walk := Counting(|parts|);
      CountingVisits(|parts|);
    }
    WalkOnce(events, walks, walk);
    OneEvent(events, walks + [walk]);
    assert (walks + [walk])[..n] == walks;
    SameLength(front, walks);
    Apart(CallsOf(After(front, walks).chunks), InOrder(front),
          if Flushes(e) then CallsOf(Flushed(parts, walk)) else [], if Flushes(e) then Completes(parts) else []);
    walks := walks + [walk];
  }

  lemma Apart<T>(a: seq<T>, b: seq<T>, c: seq<T>, d: seq<T>)
    requires |a| == |b|
    ensures a + c == b + d <==> a == b && c == d
  {
    if a + c == b + d {
      assert a == (a + c)[..|a|] && b == (b + d)[..|b|];
      assert c == (a + c)[|a|..] && d == (b + d)[|b|..];
    }
  }

  /** Every walk delivers the calls in the order they were started, exactly when no walk meets two different calls. */
  lemma OrderIsKept(events: seq<Event>)
    ensures AlwaysInOrder(events) <==> AllAlike(events)
  {
    hide Walked, After, InOrder, CallsOf;
    if AllAlike(events) {
      forall walks | Walked(events, walks) ensures CallsOf(After(events, walks).chunks) == InOrder(events) {
        AlikeInOrder(events, walks);
      }
    } else {
      var walks := OutOfOrder(events);
    }
  }

  /** Two calls in one stream, delivered in either order. */
  lemma EitherOrder(events: seq<Event>) returns (one: seq<seq<nat>>, other: seq<seq<nat>>)
    requires var fs := [Fragment(0, "a", "f", ""), Fragment(1, "b", "g", "")];
             events == [Data(None, Some(Choice("", fs, None))), Finished]
    ensures Walked(events, one) && Walked(events, other)
    ensures CallsOf(After(events, one).chunks) != CallsOf(After(events, other).chunks)
  {
    var f0, f1 := Fragment(0, "a", "f", ""), Fragment(1, "b", "g", "");
    hide AllAlike, Walked, After, CallsOf, InOrder, TakeAll;
    TwoTaken(f0, f1);
    ThenDone(events, [f0, f1]);
    var open := TakeAll([], [f0, f1]);
    assert Complete(open[0]) != Complete(open[1]);
    one := WalksInOrder(events);
    other := OutOfOrder(events);
  }

  lemma TwoTaken(a: Fragment, b: Fragment)
    ensures TakeAll([], [a, b]) == Take(Take([], a), b)
  {
    var none := Reassembly([], []);
    OneMoreFragment([], none, [], a);
    OneMoreFragment([], none, [a], b);
    assert [] + [a] == [a] && [a] + [b] == [a, b];
  }

  lemma {:induction false} CallOpenMeans(events: seq<Event>)
    ensures CallOpen(events) <==> OpenCalls(events) != []
    decreases |events|
  {
    hide TakeAll;
    if events != [] {
      var n := |events| - 1;
      CallOpenMeans(events[..n]);
      GatherStep(events);
      TakeAllBehind([], OpenCalls(events[..n]), Tools(events[n]));
    }
  }

  /** Of any stream, with or without [DONE], every call is delivered exactly when none is open at its end. */
  lemma NothingLost(events: seq<Event>, walks: seq<seq<nat>>)
    requires Walked(events, walks)
    ensures multiset(CallsOf(After(events, walks).chunks)) == multiset(Completes(Gather(events).calls)) <==> !CallOpen(events)
  {
    hide After, Walked, CallsOf, Completes, CallOpen;
    HandedOver(events, walks);
    CallOpenMeans(events);
    var g, open := Gather(events), OpenCalls(events);
    assert g.calls == g.calls[..g.handed] + open;
    CompletesAppend(g.calls[..g.handed], open);
    assert |multiset(Completes(open))| == |open|;
  }

  /** Without [DONE] and without "tool_calls", the callback is told that the reply is over and sees none of its calls. */
  lemma {:induction false} LostWithoutDone(events: seq<Event>, walks: seq<seq<nat>>)
    requires |walks| == |events| && forall e :: e in events ==> !Flushes(e)
    ensures CallsOf(Closed(After(events, walks), false, false).chunks) == []
    ensures CallsOf(After(events, walks).chunks) == []
    decreases |events|
  {
    hide TakeAll;
    if events != [] {
      var n := |events| - 1;
      LostWithoutDone(events[..n], walks[..n]);
      TextHeard(After(events[..n], walks[..n]), events[n]);
    }
    var p := After(events, walks);
    OneMore(p.chunks, Done(p.usage));
  }

  // The events that the standard finds in the lines.

  /**
   The parser hears what the standard dispatches, when each event has one data line, exactly when no data field
   without the space carries anything.
   */
  lemma HearsTheStandard(lines: seq<string>, decode: Decoder)
    requires OneLineEvents(lines, false)
    ensures Meaning(Events(lines, decode), NOTHING) == Kept(Dispatched(lines, None), Reader(decode), NOTHING)
            <==> NothingMissed(lines, Reader(decode), NOTHING)
  {
    EventStream.HearsTheStandard(lines, Reader(decode), NOTHING);
  }

  /** `data:[DONE]` is such a field: by the standard the stream is finished, and the parser hears nothing. */
  lemma MissedDone(lines: seq<string>, decode: Decoder)
    requires lines == ["data:" + DONE, ""]
    ensures OneLineEvents(lines, false) && Events(lines, decode) == []
    ensures Kept(Dispatched(lines, None), Reader(decode), NOTHING) == [Finished]
  {
    DoneWithoutSpace(lines);
    KeptFirst(DONE, [], Reader(decode), NOTHING);
    assert [DONE] + [] == [DONE] && Reader(decode)(DONE) == Finished;
    assert Kept([], Reader(decode), NOTHING) == [];
    HeardNothing(lines, Reader(decode));
  }

  // From the lines on.

  /** The usage last given. */
  function UsageOf(events: seq<Event>): Option<Usage> {
    if events == [] then None else
      var e := events[|events| - 1];
      if e.Data? && e.usage.Some? then e.usage else UsageOf(events[..|events| - 1])
  }

  lemma {:induction false} UsageKept(events: seq<Event>, walks: seq<seq<nat>>)
    requires |walks| == |events|
    ensures After(events, walks).usage == UsageOf(events)
    decreases |events|
  {
    hide TakeAll, Flushed, Flushes;
    if events != [] {
      UsageKept(events[..|events| - 1], walks[..|events| - 1]);
    }
  }

  lemma {:induction false} UsageLast(events: seq<Event>, i: nat)
    requires i < |events| && events[i].Data? && events[i].usage.Some?
    requires forall j :: i < j < |events| ==> events[j].Data? && events[j].usage.None?
    ensures UsageOf(events) == events[i].usage
    decreases |events|
  {
    if i < |events| - 1 {
      UsageLast(events[..|events| - 1], i);
    }
  }

  /** Events that carry nothing change nothing of what is collected. */
  lemma {:induction false} MeaningIsEnough(events: seq<Event>)
    ensures var m := Meaning(events, NOTHING);
            Gather(m) == Gather(events) && Contents(m) == Contents(events) && UsageOf(m) == UsageOf(events)
    decreases |events|
  {
    hide Meaning, Gather;
    if events == [] {
      NothingMeant();
    } else {
      var n := |events| - 1;
      var front, e := events[..n], events[n];
      MeaningIsEnough(front);
      assert events == front + [e];
      MeaningAppend(front, [e], NOTHING);
      MeaningOfOne(e);
      var m := Meaning(front, NOTHING);
      if e == NOTHING {
        assert m + [] == m;
        NothingGathered(events);
      } else {
        assert (m + [e])[..|m|] == m;
        OneGathered(m + [e], events);
      }
    }
  }

  lemma NothingMeant()
    ensures Meaning<Event>([], NOTHING) == []
  {
  }

  lemma MeaningOfOne(e: Event)
    ensures Meaning([e], NOTHING) == if e == NOTHING then [] else [e]
  {
    assert [e][1..] == [];
  }

  lemma NothingGathered(events: seq<Event>)
    requires events != [] && events[|events| - 1] == NOTHING
    ensures Gather(events) == Gather(events[..|events| - 1])
  {
    hide TakeAll;
    var g := Gather(events[..|events| - 1]);
    NothingTakenOf(g.calls[g.handed..]);
    assert g.calls[..g.handed] + g.calls[g.handed..] == g.calls;
  }

  lemma OneGathered(a: seq<Event>, b: seq<Event>)
    requires a != [] && b != [] && a[|a| - 1] == b[|b| - 1] && Gather(a[..|a| - 1]) == Gather(b[..|b| - 1])
    ensures Gather(a) == Gather(b)
  {
    hide TakeAll, Tools, Flushes;
  }

  lemma NoiseIsSilent(line: string, decode: Decoder)
    requires Noise(line, decode)
    ensures Silent(line, Reader(decode), NOTHING)
  {
    HasDataMeans(line);
  }

  ghost predicate AllData(events: seq<Event>) { forall e :: e in events ==> e.Data? }

  /** The events of a stream whose payloads decode to these values, apart from events that carry nothing. */
  lemma EventsSent(payloads: seq<string>, between: seq<seq<string>>, values: seq<Event>, decode: Decoder)
    requires |between| == |payloads| && Decoded(payloads, decode, values) && AllData(values) && OnlyNoise(between, decode)
    ensures Meaning(Events(Sent(payloads, between), decode), NOTHING) == Meaning(values, NOTHING)
    ensures AllData(Events(Sent(payloads, between), decode))
  {
    hide Meaning, HasData, Sent, ReadAll;
    var read, lines := Reader(decode), Sent(payloads, between);
    forall i | 0 <= i < |payloads| ensures read(payloads[i]) == values[i] {
      assert values[i] in values;
    }
    forall i, line | 0 <= i < |between| && line in between[i] ensures Silent(line, read, NOTHING) {
      NoiseIsSilent(line, decode);
    }
    SentMeans(payloads, between, read, NOTHING, values);
    hide AllData;
    MeantData(ReadAll(lines, read));
    MeantData(values);
  }

  lemma {:induction false} MeantData(events: seq<Event>)
    ensures AllData(Meaning(events, NOTHING)) <==> AllData(events)
    decreases |events|
  {
    if events != [] {
      MeantData(events[1..]);
      assert events == [events[0]] + events[1..];
    }
  }

  lemma {:induction false} DoneBehind(events: seq<Event>, rest: seq<Event>)
    requires AllData(events)
    ensures UpToDone(events) == events && UpToDone(events + ([Finished] + rest)) == events + [Finished]
    decreases |events|
  {
    if events == [] {
      assert events + ([Finished] + rest) == [Finished] + rest;
    } else {
      assert events[0] in events && AllData(events[1..]);
      DoneBehind(events[1..], rest);
      assert (events + ([Finished] + rest))[1..] == events[1..] + ([Finished] + rest);
    }
  }

  ghost predicate GivenLast(values: seq<Event>, i: nat)
    requires i < |values| && AllData(values)
  {
    values[i].usage.Some? && forall j :: i < j < |values| ==> values[j].usage.None?
  }

  /** What the last chunk tells of the usage: what was given last, if anything was. */
  ghost predicate TellsUsage(values: seq<Event>, chunk: Chunk)
    requires AllData(values)
  {
    && chunk.Done?
    && ((forall e :: e in values ==> e.usage.None?) ==> chunk.usage.None?)
    && forall i :: 0 <= i < |values| && GivenLast(values, i) ==> chunk.usage == values[i].usage
  }

  lemma UsageTold(values: seq<Event>)
    requires AllData(values)
    ensures TellsUsage(values, Done(UsageOf(values)))
  {
    forall i | 0 <= i < |values| && GivenLast(values, i) ensures UsageOf(values) == values[i].usage {
      UsageLast(values, i);
    }
    if forall e :: e in values ==> e.usage.None? {
      NoUsage(values);
    }
  }

  lemma {:induction false} NoUsage(values: seq<Event>)
    requires AllData(values) && forall e :: e in values ==> e.usage.None?
    ensures UsageOf(values) == None
    decreases |values|
  {
    if values != [] {
      assert values[|values| - 1] in values;
      NoUsage(values[..|values| - 1]);
    }
  }

  /**
   From the lines on: a stream of messages that ends with [DONE] hands over exactly their texts, the calls collected of
   their pieces, each once, and at the end the usage last given.
   */
  lemma LinesDelivered(payloads: seq<string>, between: seq<seq<string>>, more: seq<string>, values: seq<Event>,
                       decode: Decoder, broken: bool, walks: seq<seq<nat>>, o: Outcome)
    requires |between| == |payloads| && Decoded(payloads, decode, values) && AllData(values) && OnlyNoise(between, decode)
    requires Delivers(Sent(payloads, between) + ["data: [DONE]"] + more, decode, broken, walks, o)
    ensures o.ok && TextOf(o.chunks) == Contents(values)
    ensures multiset(CallsOf(o.chunks)) == multiset(Completes(Gather(values).calls))
    ensures o.chunks != [] && TellsUsage(values, o.chunks[|o.chunks| - 1])
  {
    hide Sent, Events, Meaning, AllData, OnlyNoise, Decoded, After, Gather, Walked, Completes, TextOf, CallsOf,
         Contents, TellsUsage, UsageOf, UpToDone;
    EventsSent(payloads, between, values, decode);
    var events := Events(Sent(payloads, between), decode);
    UntilDone(Sent(payloads, between), more, decode);
    MeaningIsEnough(events);
    MeaningIsEnough(values);
    UsageTold(values);
    AtDone(events, walks);
    OneMore(After(events + [Finished], walks).chunks, Done(After(events + [Finished], walks).usage));
  }

  lemma UntilDone(lines: seq<string>, more: seq<string>, decode: Decoder)
    requires AllData(Events(lines, decode))
    ensures UpToDone(Events(lines, decode)) == Events(lines, decode)
    ensures UpToDone(Events(lines + ["data: [DONE]"] + more, decode)) == Events(lines, decode) + [Finished]
  {
    hide ReadAll, UpToDone, AllData;
    var read, events := Reader(decode), Events(lines, decode);
    ReadAllAppend(lines + ["data: [DONE]"], more, read);
    ReadAllAppend(lines, ["data: [DONE]"], read);
    OneSent("[DONE]", read);
    assert "data: " + "[DONE]" == "data: [DONE]";
    assert Events(lines + ["data: [DONE]"] + more, decode) == events + ([Finished] + ReadAll(more, read));
    DoneBehind(events, ReadAll(more, read));
  }

  /** [DONE] hands over what is open. */
  lemma AtDone(events: seq<Event>, walks: seq<seq<nat>>)
    requires Walked(events + [Finished], walks)
    ensures var p := After(events + [Finished], walks);
            && TextOf(p.chunks) == Contents(events) && p.usage == UsageOf(events)
            && multiset(CallsOf(p.chunks)) == multiset(Completes(Gather(events).calls))
  {
    hide After, Walked, Completes, TextOf, CallsOf, TakeAll;
    var all := events + [Finished];
    assert all[..|events|] == events;
    HandedOver(all, walks);
    UsageKept(all, walks);
    assert Contents(events) + "" == Contents(events);
    var g := Gather(events);
    assert TakeAll(g.calls[g.handed..], []) == g.calls[g.handed..] by {
      NothingTakenOf(g.calls[g.handed..]);
    }
    assert g.calls[..g.handed] + g.calls[g.handed..] == g.calls;
    assert g.calls[..|g.calls|] == g.calls;
  }

  lemma NothingTakenOf(parts: seq<ToolCall>)
    ensures TakeAll(parts, []) == parts
  {
  }

  /** So a reply whose calls come in pieces, each behind the one before, is handed over whole, whatever finishes it. */
  lemma ReplyDelivered(payloads: seq<string>, between: seq<seq<string>>, more: seq<string>, values: seq<Event>,
                       decode: Decoder, broken: bool, walks: seq<seq<nat>>, o: Outcome, calls: seq<ToolCall>, cuts: seq<seq<string>>)
    requires |between| == |payloads| && Decoded(payloads, decode, values) && AllData(values) && OnlyNoise(between, decode)
    requires Together(values) && CutsOf(cuts, calls) && AllTools(values) == CutAll(calls, cuts)
    requires Delivers(Sent(payloads, between) + ["data: [DONE]"] + more, decode, broken, walks, o)
    ensures o.ok && TextOf(o.chunks) == Contents(values) && multiset(CallsOf(o.chunks)) == multiset(Completes(calls))
  {
    hide Sent, Events, Meaning, AllData, OnlyNoise, Decoded, Delivers, Gather, Completes, TextOf, CallsOf, Contents, TellsUsage,
         Together, CallOpen, TakeAll, CutAll, CutsOf;
    LinesDelivered(payloads, between, more, values, decode, broken, walks, o);
    TogetherRebuilds(values);
    RebuiltFromTools(values);
    CutsRebuild(calls, cuts);
  }

  /** The message says that tool calls are complete. */
  predicate SaysComplete(e: Event) { e.Data? && e.choice.Some? && e.choice.value.finish == Some("tool_calls") }

  lemma {:induction false} CompleteHands(events: seq<Event>)
    requires AllData(events)
    ensures events != [] && SaysComplete(events[|events| - 1]) ==> Gather(events).handed == |Gather(events).calls|
    ensures (forall e :: e in events ==> !SaysComplete(e)) ==> Gather(events).handed == 0
    decreases |events|
  {
    if events != [] {
      assert events[|events| - 1] in events;
      CompleteHands(events[..|events| - 1]);
    }
  }

  /**
   Without [DONE]: the texts are handed over, and all calls if the last message says that they are complete, none if no
   message does; and the end is told unless the reader failed.
   */
  lemma LinesCutOff(payloads: seq<string>, between: seq<seq<string>>, values: seq<Event>, decode: Decoder, broken: bool,
                    walks: seq<seq<nat>>, o: Outcome)
    requires |between| == |payloads| && Decoded(payloads, decode, values) && AllData(values) && OnlyNoise(between, decode)
    requires Delivers(Sent(payloads, between), decode, broken, walks, o)
    ensures o.ok == !broken && TextOf(o.chunks) == Contents(values)
    ensures values != [] && SaysComplete(values[|values| - 1]) ==>
              multiset(CallsOf(o.chunks)) == multiset(Completes(Gather(values).calls))
    ensures (forall e :: e in values ==> !SaysComplete(e)) ==> CallsOf(o.chunks) == []
    ensures !broken ==> o.chunks != [] && TellsUsage(values, o.chunks[|o.chunks| - 1])
    ensures broken ==> Open(o.chunks)
  {
    hide Sent, Events, Meaning, OnlyNoise, Decoded, After, Gather, Walked, Completes, TextOf, CallsOf, Contents, TellsUsage,
         UsageOf, UpToDone, SaysComplete, Open;
    EventsSent(payloads, between, values, decode);
    var events := Events(Sent(payloads, between), decode);
    UntilDone(Sent(payloads, between), [], decode);
    MeaningIsEnough(events);
    MeaningIsEnough(values);
    UsageTold(values);
    CompleteHands(values);
    NotFinished(events);
    CutOffAt(events, walks, broken, o);
  }

  lemma NotFinished(events: seq<Event>)
    requires AllData(events)
    ensures events != [] ==> !events[|events| - 1].Finished?
  {
    assert events != [] ==> events[|events| - 1] in events;
  }

  lemma CutOffAt(events: seq<Event>, walks: seq<seq<nat>>, broken: bool, o: Outcome)
    requires Walked(events, walks) && o == Closed(After(events, walks), false, broken)
    ensures o.ok == !broken && TextOf(o.chunks) == Contents(events)
    ensures multiset(CallsOf(o.chunks)) == multiset(Completes(Gather(events).calls[..Gather(events).handed]))
    ensures Gather(events).handed == |Gather(events).calls| ==> multiset(CallsOf(o.chunks)) == multiset(Completes(Gather(events).calls))
    ensures Gather(events).handed == 0 ==> CallsOf(o.chunks) == []
    ensures if broken then Open(o.chunks) else o.chunks != [] && o.chunks[|o.chunks| - 1] == Done(UsageOf(events))
  {
    hide After, Gather, Walked, Completes, TextOf, CallsOf, Contents, UsageOf, Open;
    HandedOver(events, walks);
    UsageKept(events, walks);
    StaysOpen(events, walks);
    var p, g := After(events, walks), Gather(events);
    assert g.calls[..|g.calls|] == g.calls;
    OneMore(p.chunks, Done(p.usage));
    assert TextOf(p.chunks) + "" == TextOf(p.chunks) && CallsOf(p.chunks) + [] == CallsOf(p.chunks);
    NoneCompleted(CallsOf(o.chunks), g);
  }

  lemma NoneCompleted(calls: seq<ToolCall>, g: Gathered)
    requires g.handed <= |g.calls| && multiset(calls) == multiset(Completes(g.calls[..g.handed]))
    ensures g.handed == 0 ==> calls == []
  {
    assert |calls| == |multiset(calls)|;
  }

  lemma {:induction false} StaysOpen(events: seq<Event>, walks: seq<seq<nat>>)
    requires |walks| == |events|
    ensures Open(After(events, walks).chunks)
    decreases |events|
  {
    hide TakeAll, Flushed;
    if events != [] {
      var n := |events| - 1;
      StaysOpen(events[..n], walks[..n]);
      FlushedIsCalls(Heard(After(events[..n], walks[..n]), events[n]).parts, walks[n]);
    }
  }
}
