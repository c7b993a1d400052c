/**
 Reassembly of a streamed reply in llm/anthropic/client.go: `parseSSEStream`, against `parseResponse`, which
 reads the same reply when it comes in one piece.
 */
module AnthropicStream {
  import opened Wrappers
  import opened EventStream
  import opened Sse

  datatype Event =
    | BlockStart(head: Option<Head>)
    | BlockDelta(delta: Option<Fragment>)
    | BlockStop
    | MessageStart(input: int, output: int)
    | MessageDelta(usage: Option<Usage>)
    | MessageStop
    | Problem(message: Option<string>)
    | Other

  datatype Head = TextHead(text: string) | ToolHead(id: string, name: string) | InternalHead

  datatype Fragment = TextDelta(text: string) | InputDelta(json: string) | OtherDelta

  type Decoder = string -> Option<Event>

  /** The decoded events up to where reading stops being their business; what does not decode counts for nothing. */
  function Read(payload: string, decode: Decoder): Event {
    if payload == DONE then MessageStop else
      match decode(payload) case Some(e) => e case None => Other
  }

  function Reader(decode: Decoder): string -> Event { payload => Read(payload, decode) }

  function Events(lines: seq<string>, decode: Decoder): seq<Event> {
    ReadAll(lines, Reader(decode))
  }

  // The parser, event by event.

  datatype Parser = Parser(current: Option<Head>, args: string, usage: Option<Usage>, chunks: seq<Chunk>)

  const START := Parser(None, "", None, [])

  predicate Ends(e: Event) { e.MessageStop? || e.Problem? }

  function OrEmptyObject(args: string): string { if args == "" then "{}" else args }

  function React(p: Parser, e: Event): Parser {
    match e
    case BlockStart(Some(ToolHead(id, name))) => p.(current := Some(ToolHead(id, name)), args := "")
    case BlockDelta(Some(TextDelta(t))) => p.(chunks := p.chunks + [Text(t)])
    case BlockDelta(Some(InputDelta(json))) => p.(args := p.args + json)
    case BlockStop =>
      if p.current.Some? && p.current.value.ToolHead?
      then Parser(None, "", p.usage, p.chunks + [Tool(ToolCall(p.current.value.id, p.current.value.name, OrEmptyObject(p.args)))])
      else p
    case MessageStart(i, o) => if i > 0 then p.(usage := Some(Usage(i, o))) else p
    case MessageDelta(Some(u)) => p.(usage := Some(u))
    case _ => p
  }

  function Feed(p: Parser, events: seq<Event>, broken: bool): Outcome
    decreases |events|
  {
    if events == [] then (if broken then Outcome(p.chunks, false) else Outcome(p.chunks + [Done(p.usage)], true))
    else if events[0].MessageStop? then Outcome(p.chunks + [Done(p.usage)], true)
    else if events[0].Problem? then Outcome(p.chunks + [Error(Explained(events[0]))], false)
    else Feed(React(p, events[0]), events[1..], broken)
  }

  function Explained(e: Event): string
    requires e.Problem?
  {
    "anthropic: stream error: " + match e.message case Some(m) => m case None => "unknown error"
  }

  /** Reads lines until the reply ends; `broken` says that the reader fails behind the last of them. */
  method ParseSSEStream(lines: seq<string>, broken: bool, decode: Decoder) returns (chunks: seq<Chunk>, ok: bool)
    ensures Outcome(chunks, ok) == Feed(START, Events(lines, decode), broken)
  {
    chunks := [];
    var currentToolCall: Option<Head> := None;
    var toolArgs: string := "";
    var usage: Option<Usage> := None;
    hide React, Feed;
    for i := 0 to |lines|
      invariant Feed(START, Events(lines, decode), broken)
             == Feed(Parser(currentToolCall, toolArgs, usage, chunks), Events(lines[i..], decode), broken)
      invariant currentToolCall.Some? ==> currentToolCall.value.ToolHead?
    {
      var line := lines[i];
      IgnoredMeans(line);
      assert lines[i..][0] == line && lines[i..][1..] == lines[i + 1..];
      if Ignored(line) {
        continue;
      }
      var data := line[|DATA|..];
      ghost var p := Parser(currentToolCall, toolArgs, usage, chunks);
      FeedOne(p, Read(data, decode), Events(lines[i + 1..], decode), broken);
      if data == DONE {
        return chunks + [Done(usage)], true;
      }
      var event := decode(data);
      if event.None? {
        continue;
      }
      match event.value {
        case BlockStart(head) =>
          if head.Some? && head.value.ToolHead? {
            currentToolCall, toolArgs := head, "";
          }
        case BlockDelta(delta) =>
          if delta.Some? {
            match delta.value {
              case TextDelta(t) => chunks := chunks + [Text(t)];
              case InputDelta(json) => toolArgs := toolArgs + json;
              case OtherDelta =>
            }
          }
        case BlockStop =>
          if currentToolCall.Some? {
            var arguments := toolArgs;
            if arguments == "" {
              arguments := "{}";
            }
            chunks := chunks + [Tool(ToolCall(currentToolCall.value.id, currentToolCall.value.name, arguments))];
            currentToolCall, toolArgs := None, "";
          }
        case MessageStart(input, output) =>
          if input > 0 {
            usage := Some(Usage(input, output));
          }
        case MessageDelta(u) =>
          if u.Some? {
            usage := u;
          }
        case MessageStop => return chunks + [Done(usage)], true;
        case Problem(message) => return chunks + [Error(Explained(event.value))], false;
        case Other =>
      }
    }
    assert lines[|lines|..] == [];
    FeedNone(Parser(currentToolCall, toolArgs, usage, chunks), broken);
    if broken {
      return chunks, false;
    }
    chunks, ok := chunks + [Done(usage)], true;
  }

  lemma FeedNone(p: Parser, broken: bool)
    ensures Feed(p, [], broken) == if broken then Outcome(p.chunks, false) else Outcome(p.chunks + [Done(p.usage)], true)
  {
  }

  /** What one event does, spelt out case by case. */
  lemma FeedOne(p: Parser, e: Event, rest: seq<Event>, broken: bool)
    requires p.current.Some? ==> p.current.value.ToolHead?
    ensures Feed(p, [e] + rest, broken) ==
            match e
            case MessageStop => Outcome(p.chunks + [Done(p.usage)], true)
            case Problem(_) => Outcome(p.chunks + [Error(Explained(e))], false)
            case BlockStart(head) =>
              if head.Some? && head.value.ToolHead? then Feed(Parser(head, "", p.usage, p.chunks), rest, broken)
              else Feed(p, rest, broken)
            case BlockDelta(None) => Feed(p, rest, broken)
            case BlockDelta(Some(TextDelta(t))) => Feed(p.(chunks := p.chunks + [Text(t)]), rest, broken)
            case BlockDelta(Some(InputDelta(j))) => Feed(p.(args := p.args + j), rest, broken)
            case BlockDelta(Some(OtherDelta)) => Feed(p, rest, broken)
            case BlockStop =>
              if p.current.None? then Feed(p, rest, broken)
              else Feed(Parser(None, "", p.usage, p.chunks
                   + [Tool(ToolCall(p.current.value.id, p.current.value.name, OrEmptyObject(p.args)))]), rest, broken)
            case MessageStart(i, o) => Feed(if i > 0 then p.(usage := Some(Usage(i, o))) else p, rest, broken)
            case MessageDelta(u) => Feed(if u.Some? then p.(usage := u) else p, rest, broken)
            case Other => Feed(p, rest, broken)
  {
    assert ([e] + rest)[1..] == rest;
  }

  // Whatever the stream, the caller is told of its end at most once, and last.

  lemma {:induction false} EndsOnce(p: Parser, events: seq<Event>, broken: bool)
    requires Open(p.chunks)
    ensures var o := Feed(p, events, broken);
            || (o.ok && o.chunks != [] && Open(o.chunks[..|o.chunks| - 1]) && o.chunks[|o.chunks| - 1].Done?)
            || (!o.ok && o.chunks != [] && Open(o.chunks[..|o.chunks| - 1]) && o.chunks[|o.chunks| - 1].Error?)
            || (!o.ok && broken && Open(o.chunks))
    decreases |events|
  {
    if events != [] && !Ends(events[0]) {
      EndsOnce(React(p, events[0]), events[1..], broken);
    }
  }

  // Replies, and the ways to stream them.

  datatype Block =
    | TextBlock(text: string)
    | ToolUse(id: string, name: string, input: string)
    | Internal

  datatype Reply = Reply(content: string, calls: seq<ToolCall>)

  method ParseResponse(blocks: seq<Block>) returns (out: Reply)
    ensures out == Whole(blocks)
  {
    out := Reply("", []);
    JoinedEmpty(Whole(blocks));
    hide Joined;
    for i := 0 to |blocks|
      invariant Whole(blocks) == Joined(out, Whole(blocks[i..]))
    {
      assert blocks[i..][0] == blocks[i] && blocks[i..][1..] == blocks[i + 1..];
      JoinedAssociates(out, Contribution(blocks[i]), Whole(blocks[i + 1..]));
      OneJoined(out, blocks[i]);
      match blocks[i] {
        case TextBlock(text) => out := out.(content := out.content + text);
        case ToolUse(id, name, input) => out := out.(calls := out.calls + [ToolCall(id, name, input)]);
        case Internal =>
      }
    }
    assert blocks[|blocks|..] == [];
    JoinedEmpty(out);
  }

  lemma OneJoined(a: Reply, b: Block)
    ensures Joined(a, Contribution(b)) ==
            match b
            case TextBlock(text) => a.(content := a.content + text)
            case ToolUse(id, name, input) => a.(calls := a.calls + [ToolCall(id, name, input)])
            case Internal => a
  {
  }

  lemma JoinedEmpty(a: Reply)
    ensures Joined(a, Reply("", [])) == a == Joined(Reply("", []), a)
  {
  }

  lemma JoinedAssociates(a: Reply, b: Reply, c: Reply)
    ensures Joined(Joined(a, b), c) == Joined(a, Joined(b, c))
  {
  }

  function Whole(blocks: seq<Block>): Reply {
    if blocks == [] then Reply("", []) else Joined(Contribution(blocks[0]), Whole(blocks[1..]))
  }

  function Contribution(b: Block): Reply {
    match b
    case TextBlock(text) => Reply(text, [])
    case ToolUse(id, name, input) => Reply("", [ToolCall(id, name, input)])
    case Internal => Reply("", [])
  }

  function Joined(a: Reply, b: Reply): Reply { Reply(a.content + b.content, a.calls + b.calls) }

  /** Events that carry no part of any block: pings, usage, anything unknown. */
  predicate Quiet(e: Event) {
    e.MessageStart? || e.MessageDelta? || e.Other? || e == BlockDelta(None) || e == BlockDelta(Some(OtherDelta))
  }

  predicate AllQuiet(events: seq<Event>) { forall e :: e in events ==> Quiet(e) }

  /** One way to stream a block: what comes before it, the text its first event carries, and the events in between. */
  datatype Part = Part(lead: seq<Event>, opening: string, middle: seq<Event>)

  function TextIn(e: Event): string { match e case BlockDelta(Some(TextDelta(t))) => t case _ => "" }

  function InputIn(e: Event): string { match e case BlockDelta(Some(InputDelta(j))) => j case _ => "" }

  function Texts(events: seq<Event>): string {
    if events == [] then "" else TextIn(events[0]) + Texts(events[1..])
  }

  function Inputs(events: seq<Event>): string {
    if events == [] then "" else InputIn(events[0]) + Inputs(events[1..])
  }

  predicate IsText(e: Event) { e.BlockDelta? && e.delta.Some? && e.delta.value.TextDelta? }

  predicate IsInput(e: Event) { e.BlockDelta? && e.delta.Some? && e.delta.value.InputDelta? }

  /** The part holds the block: its fragments, put together, are the block's content. An empty object may be left out. */
  predicate Holds(part: Part, b: Block) {
    && AllQuiet(part.lead)
    && match b
       case TextBlock(text) =>
         (forall e :: e in part.middle ==> Quiet(e) || IsText(e)) && part.opening + Texts(part.middle) == text
       case ToolUse(_, _, input) =>
         && (forall e :: e in part.middle ==> Quiet(e) || IsInput(e))
         && (Inputs(part.middle) == input || (Inputs(part.middle) == "" && input == "{}"))
       case Internal =>
         forall e :: e in part.middle ==> Quiet(e) || IsInput(e)
  }

  function HeadOf(b: Block, opening: string): Head {
    match b
    case TextBlock(_) => TextHead(opening)
    case ToolUse(id, name, _) => ToolHead(id, name)
    case Internal => InternalHead
  }

  function Streamed(b: Block, part: Part): seq<Event> {
    part.lead + [BlockStart(Some(HeadOf(b, part.opening)))] + part.middle + [BlockStop]
  }

  predicate HoldAll(parts: seq<Part>, blocks: seq<Block>) {
    |parts| == |blocks| && forall i :: 0 <= i < |blocks| ==> Holds(parts[i], blocks[i])
  }

  function StreamedAll(blocks: seq<Block>, parts: seq<Part>): seq<Event>
    requires |parts| == |blocks|
  {
    if blocks == [] then [] else Streamed(blocks[0], parts[0]) + StreamedAll(blocks[1..], parts[1..])
  }

  // What the callback sees of such a stream.

  function ReactAll(p: Parser, events: seq<Event>): Parser
    decreases |events|
  {
    if events == [] then p else ReactAll(React(p, events[0]), events[1..])
  }

  lemma {:induction false} ReactAppend(p: Parser, a: seq<Event>, b: seq<Event>)
    ensures ReactAll(p, a + b) == ReactAll(ReactAll(p, a), b)
    decreases |a|
  {
    hide React;
    if a == [] {
      assert a + b == b;
    } else {
      assert (a + b)[1..] == a[1..] + b;
      ReactAppend(React(p, a[0]), a[1..], b);
    }
  }

  lemma {:induction false} FeedAppend(p: Parser, a: seq<Event>, b: seq<Event>, broken: bool)
    requires forall e :: e in a ==> !Ends(e)
    ensures Feed(p, a + b, broken) == Feed(ReactAll(p, a), b, broken)
    decreases |a|
  {
    hide React;
    if a == [] {
      assert a + b == b;
    } else {
      assert !Ends(a[0]);
      assert (a + b)[1..] == a[1..] + b;
      FeedAppend(React(p, a[0]), a[1..], b, broken);
    }
  }

  predicate InBlock(e: Event) { Quiet(e) || IsText(e) || IsInput(e) }

  lemma OneFed(p: Parser, e: Event)
    requires InBlock(e)
    ensures var r := React(p, e);
            && r.current == p.current && r.args == p.args + InputIn(e)
            && TextOf(r.chunks) == TextOf(p.chunks) + TextIn(e) && CallsOf(r.chunks) == CallsOf(p.chunks)
  {
    if IsText(e) {
      OneMore(p.chunks, Text(e.delta.value.text));
    }
  }

  lemma {:induction false} MiddleFed(p: Parser, middle: seq<Event>)
    requires forall e :: e in middle ==> InBlock(e)
    ensures var r := ReactAll(p, middle);
            && r.current == p.current && r.args == p.args + Inputs(middle)
            && TextOf(r.chunks) == TextOf(p.chunks) + Texts(middle) && CallsOf(r.chunks) == CallsOf(p.chunks)
    decreases |middle|
  {
    hide React, InBlock, TextIn, InputIn, TextOf, CallsOf;
    if middle != [] {
      OneFed(p, middle[0]);
      MiddleFed(React(p, middle[0]), middle[1..]);
    }
  }

  /** What is delivered of a block: the text of its fragments, or the call once it is complete. */
  function Delivered(b: Block, part: Part): Reply {
    match b
    case TextBlock(_) => Reply(Texts(part.middle), [])
    case ToolUse(id, name, _) => Reply("", [ToolCall(id, name, OrEmptyObject(Inputs(part.middle)))])
    case Internal => Reply("", [])
  }

  function DeliveredAll(blocks: seq<Block>, parts: seq<Part>): Reply
    requires |parts| == |blocks|
  {
    if blocks == [] then Reply("", []) else Joined(Delivered(blocks[0], parts[0]), DeliveredAll(blocks[1..], parts[1..]))
  }

  function Seen(chunks: seq<Chunk>): Reply { Reply(TextOf(chunks), CallsOf(chunks)) }

  lemma NoneOf(events: seq<Event>)
    requires AllQuiet(events)
    ensures Texts(events) == "" && Inputs(events) == ""
  {
    if events != [] {
      assert Quiet(events[0]);
      NoneOf(events[1..]);
    }
  }

  lemma NoTexts(events: seq<Event>)
    requires forall e :: e in events ==> Quiet(e) || IsInput(e)
    ensures Texts(events) == ""
  {
    if events != [] {
      assert Quiet(events[0]) || IsInput(events[0]);
      NoTexts(events[1..]);
    }
  }

  /** A part, read up to the event that stops the block. */
  lemma PartRead(p: Parser, b: Block, part: Part) returns (r: Parser)
    requires p.current == None && Holds(part, b)
    ensures ReactAll(p, Streamed(b, part)) == React(r, BlockStop)
    ensures TextOf(r.chunks) == TextOf(p.chunks) + Texts(part.middle) && CallsOf(r.chunks) == CallsOf(p.chunks)
    ensures if b.ToolUse? then r.current == Some(ToolHead(b.id, b.name)) && r.args == Inputs(part.middle) else r.current == None
  {
    hide React, ReactAll, TextOf, CallsOf, Texts, Inputs;
    var start := BlockStart(Some(HeadOf(b, part.opening)));
    ReactAppend(p, part.lead + [start] + part.middle, [BlockStop]);
    ReactAppend(p, part.lead + [start], part.middle);
    ReactAppend(p, part.lead, [start]);
    MiddleFed(p, part.lead);
    NoneOf(part.lead);
    var p1 := ReactAll(p, part.lead);
    Started(p1, HeadOf(b, part.opening));
    var p2 := React(p1, start);
    MiddleFed(p2, part.middle);
    r := ReactAll(p2, part.middle);
    OnlyOne(p1, start);
    OnlyOne(r, BlockStop);
    assert TextOf(p.chunks) + "" == TextOf(p.chunks);
    assert "" + Inputs(part.middle) == Inputs(part.middle);
  }

  lemma OnlyOne(p: Parser, e: Event)
    ensures ReactAll(p, [e]) == React(p, e)
  {
  }

  lemma Started(p: Parser, h: Head)
    requires p.current == None
    ensures var r := React(p, BlockStart(Some(h)));
            r.chunks == p.chunks && if h.ToolHead? then r.current == Some(h) && r.args == "" else r == p
  {
  }

  lemma BlockFed(p: Parser, b: Block, part: Part)
    requires p.current == None && Holds(part, b)
    ensures var r := ReactAll(p, Streamed(b, part));
            r.current == None && Seen(r.chunks) == Joined(Seen(p.chunks), Delivered(b, part))
  {
    hide ReactAll, Streamed, TextOf, CallsOf;
    var r := PartRead(p, b, part);
    if !b.TextBlock? {
      NoTexts(part.middle);
    }
    if b.ToolUse? {
      OneMore(r.chunks, Tool(ToolCall(b.id, b.name, OrEmptyObject(r.args))));
    }
  }

  lemma NothingFed(p: Parser)
    ensures ReactAll(p, []) == p && Joined(Seen(p.chunks), Reply("", [])) == Seen(p.chunks)
  {
  }

  lemma {:induction false} BlocksFed(p: Parser, blocks: seq<Block>, parts: seq<Part>)
    requires p.current == None && HoldAll(parts, blocks)
    ensures var r := ReactAll(p, StreamedAll(blocks, parts));
            r.current == None && Seen(r.chunks) == Joined(Seen(p.chunks), DeliveredAll(blocks, parts))
    decreases |blocks|
  {
    hide Streamed, Holds, React, ReactAll, Seen, Delivered, Joined;
    if blocks == [] {
      NothingFed(p);
      assert StreamedAll(blocks, parts) == [];
      assert DeliveredAll(blocks, parts) == Reply("", []);
      assert ReactAll(p, StreamedAll(blocks, parts)) == p;
    } else {
      var first, rest := Streamed(blocks[0], parts[0]), StreamedAll(blocks[1..], parts[1..]);
      BlockFed(p, blocks[0], parts[0]);
      BlocksFed(ReactAll(p, first), blocks[1..], parts[1..]);
      InTurn(p, first, rest, Delivered(blocks[0], parts[0]), DeliveredAll(blocks[1..], parts[1..]));
      assert StreamedAll(blocks, parts) == first + rest;
    }
  }

  lemma InTurn(p: Parser, first: seq<Event>, rest: seq<Event>, one: Reply, others: Reply)
    requires Seen(ReactAll(p, first).chunks) == Joined(Seen(p.chunks), one)
    requires Seen(ReactAll(ReactAll(p, first), rest).chunks) == Joined(Seen(ReactAll(p, first).chunks), others)
    ensures ReactAll(p, first + rest) == ReactAll(ReactAll(p, first), rest)
    ensures Seen(ReactAll(p, first + rest).chunks) == Joined(Seen(p.chunks), Joined(one, others))
  {
    hide ReactAll, Seen, Joined;
    ReactAppend(p, first, rest);
    JoinedAssociates(Seen(p.chunks), one, others);
  }

  lemma NothingEnds(b: Block, part: Part)
    requires Holds(part, b)
    ensures forall e :: e in Streamed(b, part) ==> !Ends(e)
  {
    forall e | e in Streamed(b, part) ensures !Ends(e) {
      assert e in part.lead ==> Quiet(e);
      assert e in part.middle ==> Quiet(e) || IsText(e) || IsInput(e);
    }
  }

  lemma {:induction false} NothingEndsAll(blocks: seq<Block>, parts: seq<Part>)
    requires HoldAll(parts, blocks)
    ensures forall e :: e in StreamedAll(blocks, parts) ==> !Ends(e)
    decreases |blocks|
  {
    hide Streamed, Holds;
    if blocks != [] {
      NothingEnds(blocks[0], parts[0]);
      NothingEndsAll(blocks[1..], parts[1..]);
    }
  }

  // The stream agrees with the whole reply, except in two cases.

  /** No text in the first event of a block, and no tool call with empty arguments. */
  predicate Lossless(b: Block, part: Part) {
    match b
    case TextBlock(_) => part.opening == ""
    case ToolUse(_, _, input) => input != ""
    case Internal => true
  }

  lemma HeadIsWhole(b: Block, part: Part, d: Reply, w: Reply)
    requires Holds(part, b) && |d.content| <= |w.content| && |d.calls| == |w.calls|
    ensures Joined(Delivered(b, part), d) == Joined(Contribution(b), w) <==> Lossless(b, part) && d == w
    ensures |Joined(Delivered(b, part), d).content| <= |Joined(Contribution(b), w).content|
    ensures |Joined(Delivered(b, part), d).calls| == |Joined(Contribution(b), w).calls|
  {
    var one, whole := Delivered(b, part), Contribution(b);
    assert b.TextBlock? && part.opening == "" ==> part.opening + Texts(part.middle) == Texts(part.middle);
    assert Lossless(b, part) <==> one == whole;
    assert |one.content| <= |whole.content| && |one.calls| == |whole.calls|;
    if Joined(one, d) == Joined(whole, w) {
      SplitEqually(one.content, d.content, whole.content, w.content);
      SplitEqually(one.calls, d.calls, whole.calls, w.calls);
    }
  }

  lemma SplitEqually<T>(a: seq<T>, b: seq<T>, c: seq<T>, d: seq<T>)
    requires a + b == c + d && |a| <= |c| && |b| <= |d|
    ensures a == c && b == d
  {
    assert |a + b| == |c + d|;
    assert a == (a + b)[..|a|] && c == (c + d)[..|c|];
    assert b == (a + b)[|a|..] && d == (c + d)[|c|..];
  }

  predicate AllLossless(blocks: seq<Block>, parts: seq<Part>)
    requires |parts| == |blocks|
  {
    blocks == [] || (Lossless(blocks[0], parts[0]) && AllLossless(blocks[1..], parts[1..]))
  }

  lemma {:induction false} DeliveredIsWhole(blocks: seq<Block>, parts: seq<Part>)
    requires HoldAll(parts, blocks)
    ensures DeliveredAll(blocks, parts) == Whole(blocks) <==> AllLossless(blocks, parts)
    ensures |DeliveredAll(blocks, parts).content| <= |Whole(blocks).content|
    ensures |DeliveredAll(blocks, parts).calls| == |Whole(blocks).calls|
    decreases |blocks|
  {
    hide Lossless, Holds, Delivered, Joined, Contribution;
    if blocks != [] {
      DeliveredIsWhole(blocks[1..], parts[1..]);
      HeadIsWhole(blocks[0], parts[0], DeliveredAll(blocks[1..], parts[1..]), Whole(blocks[1..]));
    }
  }

  /**
   However a reply is cut into events, and whatever follows message_stop: the callback sees the reply that
   `parseResponse` reads, exactly when no block is lossy; the chunk that says it is over comes once, and last.
   */
  lemma StreamAgrees(blocks: seq<Block>, parts: seq<Part>, trail: seq<Event>, more: seq<Event>, broken: bool)
    requires HoldAll(parts, blocks) && AllQuiet(trail)
    ensures var o := Feed(START, StreamedAll(blocks, parts) + trail + [MessageStop] + more, broken);
            && o.ok && o.chunks != [] && Open(o.chunks[..|o.chunks| - 1]) && o.chunks[|o.chunks| - 1].Done?
            && Seen(o.chunks) == DeliveredAll(blocks, parts)
            && (Seen(o.chunks) == Whole(blocks) <==> AllLossless(blocks, parts))
  {
    hide React, ReactAll, Feed, Holds, AllLossless, StreamedAll, DeliveredAll, Whole, AllQuiet;
    var body := StreamedAll(blocks, parts);
    NothingEndsAll(blocks, parts);
    QuietEndsNot(trail);
    assert body + trail + [MessageStop] + more == (body + trail) + ([MessageStop] + more);
    FeedAppend(START, body + trail, [MessageStop] + more, broken);
    ReactAppend(START, body, trail);
    BlocksFed(START, blocks, parts);
    var p := ReactAll(START, body);
    MiddleFed(p, trail);
    NoneOf(trail);
    var q := ReactAll(p, trail);
    FeedOne(q, MessageStop, more, broken);
    OneMore(q.chunks, Done(q.usage));
    EndsOnce(START, body + trail + [MessageStop] + more, broken);
    DeliveredIsWhole(blocks, parts);
    JoinedEmpty(DeliveredAll(blocks, parts));
  }

  lemma QuietEndsNot(events: seq<Event>)
    requires AllQuiet(events)
    ensures forall e :: e in events ==> !Ends(e) && InBlock(e)
  {
    forall e | e in events ensures !Ends(e) && InBlock(e) {
      assert Quiet(e);
    }
  }

  /** Text in the first event of a block is lost. */
  lemma OpeningTextLost(broken: bool)
    ensures var blocks, parts := [TextBlock("x")], [Part([], "x", [])];
            && HoldAll(parts, blocks)
            && Whole(blocks) == Reply("x", [])
            && Seen(Feed(START, StreamedAll(blocks, parts) + [] + [MessageStop] + [], broken).chunks) == Reply("", [])
  {
    var blocks, parts := [TextBlock("x")], [Part([], "x", [])];
    StreamAgrees(blocks, parts, [], [], broken);
    assert blocks[1..] == [] && parts[1..] == [];
  }

  /** A call with empty input becomes a call with an empty object. */
  lemma EmptyInputFilled(broken: bool)
    ensures var blocks, parts := [ToolUse("a", "f", "")], [Part([], "", [])];
            && HoldAll(parts, blocks)
            && Whole(blocks) == Reply("", [ToolCall("a", "f", "")])
            && Seen(Feed(START, StreamedAll(blocks, parts) + [] + [MessageStop] + [], broken).chunks)
               == Reply("", [ToolCall("a", "f", "{}")])
  {
    var blocks, parts := [ToolUse("a", "f", "")], [Part([], "", [])];
    StreamAgrees(blocks, parts, [], [], broken);
    assert blocks[1..] == [] && parts[1..] == [];
  }

  // A stream that breaks off.

  /** What was delivered before the stream ended. */
  function Spoken(o: Outcome): seq<Chunk> {
    if o.chunks != [] && !(o.chunks[|o.chunks| - 1].Text? || o.chunks[|o.chunks| - 1].Tool?) then o.chunks[..|o.chunks| - 1] else o.chunks
  }

  lemma {:induction false} Grows(p: Parser, events: seq<Event>, broken: bool)
    requires Open(p.chunks)
    ensures p.chunks <= Spoken(Feed(p, events, broken))
    decreases |events|
  {
    if events != [] && !Ends(events[0]) {
      Grows(React(p, events[0]), events[1..], broken);
    }
  }

  /** A stream cut short delivers a beginning of what the whole stream delivers, and never half a tool call. */
  lemma {:induction false} CutIsBeginning(p: Parser, events: seq<Event>, more: seq<Event>, broken: bool, broken': bool)
    requires Open(p.chunks)
    ensures Spoken(Feed(p, events, broken)) <= Spoken(Feed(p, events + more, broken'))
    decreases |events|
  {
    if events == [] {
      assert events + more == more;
      Grows(p, more, broken');
      assert Spoken(Feed(p, events, broken)) == p.chunks;
    } else {
      assert (events + more)[1..] == events[1..] + more;
      if !Ends(events[0]) {
        CutIsBeginning(React(p, events[0]), events[1..], more, broken, broken');
      }
    }
  }

  // The events that the standard finds in the lines.

  /**
   The parser hears what the standard dispatches, when each event has one data line, exactly when no data field
   without the space carries anything.
   */
  lemma HearsTheStandard(lines: seq<string>, decode: Decoder)
    requires OneLineEvents(lines, false)
    ensures Meaning(Events(lines, decode), Other) == Kept(Dispatched(lines, None), Reader(decode), Other)
            <==> NothingMissed(lines, Reader(decode), Other)
  {
    EventStream.HearsTheStandard(lines, Reader(decode), Other);
  }

  /** `data:[DONE]` is such a field: by the standard the stream is finished, and the parser hears nothing. */
  lemma MissedDone(lines: seq<string>, decode: Decoder)
    requires lines == ["data:" + DONE, ""]
    ensures OneLineEvents(lines, false) && Events(lines, decode) == []
    ensures Kept(Dispatched(lines, None), Reader(decode), Other) == [MessageStop]
  {
    DoneWithoutSpace(lines);
    KeptFirst(DONE, [], Reader(decode), Other);
    assert [DONE] + [] == [DONE] && Reader(decode)(DONE) == MessageStop;
    assert Kept([], Reader(decode), Other) == [];
    HeardNothing(lines, Reader(decode));
  }

  /** Events that carry nothing change nothing, so hearing the same events is delivering the same chunks. */
  lemma {:induction false} MeaningIsEnough(p: Parser, events: seq<Event>, broken: bool)
    ensures Feed(p, Meaning(events, Other), broken) == Feed(p, events, broken)
    decreases |events|
  {
    if events != [] {
      var rest := Meaning(events[1..], Other);
      assert ([events[0]] + rest)[1..] == rest;
      MeaningIsEnough(React(p, events[0]), events[1..], broken);
    }
  }

  // From the lines on.

  /** What the parser makes of the lines, from the values their payloads decode to: [DONE] ends it like message_stop. */
  lemma LinesHeard(payloads: seq<string>, between: seq<seq<string>>, more: seq<string>, values: seq<Event>, decode: Decoder,
                   broken: bool)
    requires |between| == |payloads| && Decoded(payloads, decode, values) && OnlyNoise(between, decode)
    ensures Feed(START, Events(Sent(payloads, between), decode), broken) == Feed(START, values, broken)
    ensures Feed(START, Events(Sent(payloads, between) + ["data: [DONE]"] + more, decode), broken)
         == Feed(START, values + [MessageStop], broken)
  {
    hide Feed, ReadAll, Meaning, HasData, Sent;
    var read, lines := Reader(decode), Sent(payloads, between);
    forall i | 0 <= i < |payloads| ensures read(payloads[i]) == values[i] {
    }
    forall i, line | 0 <= i < |between| && line in between[i] ensures Silent(line, read, Other) {
      NoiseIsSilent(line, decode);
    }
    SentMeans(payloads, between, read, Other, values);
    MeaningIsEnough(START, Events(lines, decode), broken);
    MeaningIsEnough(START, values, broken);
    ReadAllAppend(lines + ["data: [DONE]"], more, read);
    ReadAllAppend(lines, ["data: [DONE]"], read);
    OneSent("[DONE]", read);
    assert "data: " + "[DONE]" == "data: [DONE]";
    var rest := ReadAll(more, read);
    assert Events(lines + ["data: [DONE]"] + more, decode) == (Events(lines, decode) + [MessageStop]) + rest;
    StoppedThere(START, Events(lines, decode), rest, broken);
    MeaningIsEnough(START, Events(lines, decode) + [MessageStop], broken);
    MeaningIsEnough(START, values + [MessageStop], broken);
    MeaningAppend(Events(lines, decode), [MessageStop], Other);
    MeaningAppend(values, [MessageStop], Other);
  }

  lemma NoiseIsSilent(line: string, decode: Decoder)
    requires Noise(line, decode)
    ensures Silent(line, Reader(decode), Other)
  {
    HasDataMeans(line);
  }

  lemma {:induction false} StoppedThere(p: Parser, events: seq<Event>, rest: seq<Event>, broken: bool)
    ensures Feed(p, (events + [MessageStop]) + rest, broken) == Feed(p, events + [MessageStop], broken)
    decreases |events|
  {
    hide React;
    if events == [] {
      assert ((events + [MessageStop]) + rest)[0] == MessageStop;
    } else {
      var tail := events[1..];
      assert ((events + [MessageStop]) + rest)[1..] == (tail + [MessageStop]) + rest;
      assert (events + [MessageStop])[1..] == tail + [MessageStop];
      StoppedThere(React(p, events[0]), tail, rest, broken);
    }
  }

  /** The lines of a reply, in whatever pieces, deliver it as `parseResponse` reads it exactly when no block is lossy. */
  lemma LinesAgree(payloads: seq<string>, between: seq<seq<string>>, more: seq<string>, decode: Decoder, broken: bool,
                   blocks: seq<Block>, parts: seq<Part>, trail: seq<Event>, o: Outcome)
    requires |between| == |payloads| && OnlyNoise(between, decode) && HoldAll(parts, blocks) && AllQuiet(trail)
    requires Decoded(payloads, decode, StreamedAll(blocks, parts) + trail)
    requires o == Feed(START, Events(Sent(payloads, between) + ["data: [DONE]"] + more, decode), broken)
    ensures o.ok && o.chunks != [] && Open(o.chunks[..|o.chunks| - 1]) && o.chunks[|o.chunks| - 1].Done?
    ensures Seen(o.chunks) == Whole(blocks) <==> AllLossless(blocks, parts)
  {
    hide Feed, Events, Sent, AllQuiet, StreamedAll, AllLossless, Whole, Seen, OnlyNoise, Decoded;
    var values := StreamedAll(blocks, parts) + trail;
    LinesHeard(payloads, between, more, values, decode, broken);
    StreamAgrees(blocks, parts, trail, [], broken);
    assert values + [MessageStop] + [] == values + [MessageStop];
  }

  /** What an event says about the tokens used. */
  function UsageIn(e: Event): Option<Usage> {
    match e
    case MessageStart(input, output) => if input > 0 then Some(Usage(input, output)) else None
    case MessageDelta(usage) => usage
    case _ => None
  }

  lemma {:induction false} LastUsage(p: Parser, events: seq<Event>, i: nat)
    requires i <= |events| && forall j :: i <= j < |events| ==> UsageIn(events[j]) == None
    ensures ReactAll(p, events).usage == ReactAll(p, events[..i]).usage
    decreases |events| - i
  {
    hide React;
    if i < |events| {
      LastUsage(p, events, i + 1);
      assert events[..i + 1] == events[..i] + [events[i]];
      ReactAppend(p, events[..i], [events[i]]);
      UsageKept(ReactAll(p, events[..i]), events[i]);
    } else {
      assert events[..i] == events;
    }
  }

  lemma UsageKept(p: Parser, e: Event)
    ensures ReactAll(p, [e]) == React(p, e)
    ensures React(p, e).usage == if UsageIn(e).Some? then UsageIn(e) else p.usage
  {
    assert [e][1..] == [];
  }

  /** The usage told at the end is the last one the stream gives, if any. */
  lemma UsageTold(events: seq<Event>, broken: bool)
    requires forall e :: e in events ==> !Ends(e)
    ensures var o := Feed(START, events + [MessageStop], broken);
            && o.ok && o.chunks != [] && o.chunks[|o.chunks| - 1].Done?
            && ((forall e :: e in events ==> UsageIn(e) == None) ==> o.chunks[|o.chunks| - 1] == Done(None))
            && forall i :: 0 <= i < |events| && UsageIn(events[i]).Some? && (forall j :: i < j < |events| ==> UsageIn(events[j]) == None)
                 ==> o.chunks[|o.chunks| - 1] == Done(UsageIn(events[i]))
  {
    hide React, UsageIn;
    FeedAppend(START, events, [MessageStop], broken);
    assert events[..0] == [];
    if forall e :: e in events ==> UsageIn(e) == None {
      LastUsage(START, events, 0);
    }
    forall i | 0 <= i < |events| && UsageIn(events[i]).Some? && forall j :: i < j < |events| ==> UsageIn(events[j]) == None
      ensures ReactAll(START, events).usage == UsageIn(events[i])
    {
      LastUsage(START, events, i + 1);
      assert events[..i + 1] == events[..i] + [events[i]];
      ReactAppend(START, events[..i], [events[i]]);
      UsageKept(ReactAll(START, events[..i]), events[i]);
    }
  }

  /** An error event ends the stream with its message, behind what was delivered until then. */
  lemma ProblemTold(events: seq<Event>, message: Option<string>, rest: seq<Event>, broken: bool)
    requires forall e :: e in events ==> !Ends(e)
    ensures Feed(START, events + ([Problem(message)] + rest), broken) ==
            Outcome(ReactAll(START, events).chunks
                    + [Error(if message.Some? then "anthropic: stream error: " + message.value
                             else "anthropic: stream error: " + "unknown error")], false)
  {
    hide React;
    FeedAppend(START, events, [Problem(message)] + rest, broken);
  }

  /** A stream that just ends is over, unless the reader failed. */
  lemma EndTold(events: seq<Event>, broken: bool)
    requires forall e :: e in events ==> !Ends(e)
    ensures var p := ReactAll(START, events);
            Feed(START, events, broken) == if broken then Outcome(p.chunks, false) else Outcome(p.chunks + [Done(p.usage)], true)
  {
    hide React;
    FeedAppend(START, events, [], broken);
    assert events + [] == events;
  }
}
