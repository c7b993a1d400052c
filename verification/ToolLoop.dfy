/**
 The tool-call loop of brain/pipeline.go: `runToolLoop`, `executeToolCalls` and `callWithRetry`.
 Model replies and tool results are arbitrary; what is proved is the shape of every transcript that is
 sent to the model.
 */
module ToolLoop {

  const MAX_CONTINUATIONS := 3
  const MAX_LLM_RETRIES := 3

  datatype Call = Call(id: string, name: string, arguments: string)

  datatype Message =
    | User(content: string)
    | Assistant(content: string, calls: seq<Call>)
    | ToolResult(content: string, id: string)

  datatype Reply = Reply(content: string, calls: seq<Call>, outOfTokens: bool)

  /** What one request to the provider comes to. */
  datatype Response = Answered(reply: Reply) | Transient | Unreachable | Stopped

  /** What running one tool call comes to; the loop answers the model in every case. */
  datatype ToolOutcome = UnknownTool | BadArguments | Ran(result: string) | ToolError

  /** The outside: the n-th request with the messages it carries, and the k-th call of a round. */
  datatype World = World(ask: (nat, seq<Message>) -> Response, run: (nat, nat, Call) -> ToolOutcome)

  function Asked(w: World, n: nat, messages: seq<Message>): Response { w.ask(n, messages) }

  function Tool(w: World, round: nat, k: nat, c: Call): ToolOutcome { w.run(round, k, c) }

  const CONTINUE: string := "Your response was cut off. Continue building from where you left off \U{2014} call your next tool."

  /** The text sent back for a call, whatever it came to; a tool's own text is as truncated for the transcript. */
  function ContentOf(c: Call, o: ToolOutcome): string {
    match o
    case UnknownTool => "unknown tool " + c.name
    case BadArguments => "invalid JSON arguments for tool " + c.name
    case Ran(result) => result
    case ToolError => "tool " + c.name + " failed"
  }

  // Well-formed transcripts.

  /** `ms` starts with one tool result for each call, in the order of the calls. */
  predicate Answers(ms: seq<Message>, calls: seq<Call>): (r: bool)
    ensures r ==> |calls| <= |ms|
  {
    |calls| <= |ms| && forall k :: 0 <= k < |calls| ==> ms[k].ToolResult? && ms[k].id == calls[k].id
  }

  /** Every assistant message is followed by exactly the results of its calls, and no result stands alone. */
  predicate Paired(ms: seq<Message>) {
    ms == []
    || (!ms[0].ToolResult? && Answers(ms[1..], CallsOf(ms[0])) && Paired(ms[1 + |CallsOf(ms[0])|..]))
  }

  function CallsOf(m: Message): seq<Call> { if m.Assistant? then m.calls else [] }

  function ToolResults(ms: seq<Message>): nat {
    if ms == [] then 0 else ToolResults(ms[..|ms| - 1]) + if ms[|ms| - 1].ToolResult? then 1 else 0
  }

  function Continuations(ms: seq<Message>): nat {
    if ms == [] then 0 else Continuations(ms[..|ms| - 1]) + if ms[|ms| - 1] == User(CONTINUE) then 1 else 0
  }

  /** The definition of `Paired` as a fact, for proofs that keep it hidden. */
  lemma PairedHead(ms: seq<Message>)
    requires ms != []
    ensures Paired(ms) <==>
              && !ms[0].ToolResult? && Answers(ms[1..], CallsOf(ms[0]))
              && Paired(ms[1 + |CallsOf(ms[0])|..])
  {
  }

  lemma {:induction false} PairedAppend(a: seq<Message>, b: seq<Message>)
    requires Paired(a) && Paired(b)
    ensures Paired(a + b)
    decreases |a|
  {
    hide Paired, Answers;
    if a == [] {
      assert a + b == b;
    } else {
      PairedHead(a);
      var calls := CallsOf(a[0]);
      PairedAppend(a[1 + |calls|..], b);
      AnswersAppend(a[1..], b, calls);
      assert (a + b)[1..] == a[1..] + b;
      assert (a + b)[1 + |calls|..] == a[1 + |calls|..] + b;
      PairedHead(a + b);
    }
  }

  lemma AnswersAppend(a: seq<Message>, b: seq<Message>, calls: seq<Call>)
    requires Answers(a, calls)
    ensures Answers(a + b, calls)
  {
    assert forall k :: 0 <= k < |calls| ==> (a + b)[k] == a[k];
  }

  /** Read by index: behind an assistant message stand its results, and then something else. */
  lemma {:induction false} PairedAt(ms: seq<Message>, i: nat)
    requires Paired(ms) && i < |ms| && ms[i].Assistant?
    ensures Answers(ms[i + 1..], ms[i].calls)
    ensures var next := i + 1 + |ms[i].calls|; next < |ms| ==> !ms[next].ToolResult?
    decreases |ms|
  {
    var n := 1 + |CallsOf(ms[0])|;
    if i == 0 {
      assert n < |ms| ==> ms[n..][0] == ms[n];
    } else {
      assert i >= n by {
        assert ms[1..][i - 1] == ms[i];
      }
      PairedAt(ms[n..], i - n);
      assert ms[n..][i - n + 1..] == ms[i + 1..];
    }
  }

  lemma {:induction false} CountsAppend(a: seq<Message>, b: seq<Message>)
    ensures ToolResults(a + b) == ToolResults(a) + ToolResults(b)
    ensures Continuations(a + b) == Continuations(a) + Continuations(b)
    decreases |b|
  {
    if b == [] {
      assert a + b == a;
    } else {
      assert (a + b)[..|a + b| - 1] == a + b[..|b| - 1];
      CountsAppend(a, b[..|b| - 1]);
    }
  }

  // What the loop adds to a transcript, reply by reply.

  function Results(calls: seq<Call>, contents: seq<string>): seq<Message>
    requires |calls| == |contents|
  {
    seq(|calls|, k requires 0 <= k < |calls| => ToolResult(contents[k], calls[k].id))
  }

  datatype Round = Round(reply: Reply, contents: seq<string>) {
    predicate Valid() { |contents| == |reply.calls| && (reply.calls == [] ==> reply.outOfTokens) }

    function Messages(): seq<Message>
      requires Valid()
    {
      [Assistant(reply.content, reply.calls)]
      + if reply.calls == [] then [User(CONTINUE)] else Results(reply.calls, contents)
    }
  }

  predicate AllValid(rounds: seq<Round>) {
    forall r :: r in rounds ==> r.Valid()
  }

  function Transcript(start: seq<Message>, rounds: seq<Round>): seq<Message>
    requires AllValid(rounds)
  {
    if rounds == [] then start
    else Transcript(start, rounds[..|rounds| - 1]) + rounds[|rounds| - 1].Messages()
  }

  /** The k-th model call was sent the transcript of the first k rounds, and it was well paired. */
  ghost predicate SentInOrder(start: seq<Message>, rounds: seq<Round>, sent: seq<seq<Message>>)
    requires AllValid(rounds)
  {
    |sent| <= |rounds| + 1
    && forall k :: 0 <= k < |sent| ==> sent[k] == Transcript(start, rounds[..k]) && Paired(sent[k])
  }

  /** The k-th round is built on a reply of the model to the k-th transcript sent, and on what its calls came to. */
  ghost predicate FromModel(w: World, rounds: seq<Round>, sent: seq<seq<Message>>) {
    |rounds| <= |sent|
    && forall k :: 0 <= k < |rounds| ==> Replied(w, sent[k], rounds[k].reply) && FromTools(w, k, rounds[k])
  }

  predicate FromTools(w: World, k: nat, round: Round) {
    var calls := round.reply.calls;
    |round.contents| == |calls|
    && forall j :: 0 <= j < |calls| ==> round.contents[j] == ContentOf(calls[j], Tool(w, k, j, calls[j]))
  }

  ghost predicate Replied(w: World, ms: seq<Message>, reply: Reply) {
    exists n: nat :: Asked(w, n, ms) == Answered(reply)
  }

  function CallCount(rounds: seq<Round>): nat {
    if rounds == [] then 0 else CallCount(rounds[..|rounds| - 1]) + |rounds[|rounds| - 1].reply.calls|
  }

  function CutOffs(rounds: seq<Round>): nat {
    if rounds == [] then 0
    else CutOffs(rounds[..|rounds| - 1]) + if rounds[|rounds| - 1].reply.calls == [] then 1 else 0
  }

  lemma {:induction false} ResultsCount(calls: seq<Call>, contents: seq<string>)
    requires |calls| == |contents|
    ensures ToolResults(Results(calls, contents)) == |calls| && Continuations(Results(calls, contents)) == 0
    decreases |calls|
  {
    if calls != [] {
      var n := |calls| - 1;
      ResultsCount(calls[..n], contents[..n]);
      assert Results(calls, contents)[..n] == Results(calls[..n], contents[..n]);
    }
  }

  lemma RoundShape(r: Round)
    requires r.Valid()
    ensures Paired(r.Messages())
    ensures ToolResults(r.Messages()) == |r.reply.calls|
    ensures Continuations(r.Messages()) == if r.reply.calls == [] then 1 else 0
    ensures r.Messages()[0] == Assistant(r.reply.content, r.reply.calls)
    ensures if r.reply.calls == [] then r.Messages()[1..] == [User(CONTINUE)]
            else |r.Messages()| == 1 + |r.reply.calls|
                 && forall k :: 0 <= k < |r.reply.calls| ==> r.Messages()[1 + k] == ToolResult(r.contents[k], r.reply.calls[k].id)
  {
    var head := [Assistant(r.reply.content, r.reply.calls)];
    var tail := if r.reply.calls == [] then [User(CONTINUE)] else Results(r.reply.calls, r.contents);
    assert r.Messages() == head + tail && r.Messages()[1..] == tail;
    CountsAppend(head, tail);
    assert head[..0] == [];
    if r.reply.calls == [] {
      assert tail[..0] == [] && tail[1..] == [];
    } else {
      ResultsCount(r.reply.calls, r.contents);
      assert r.Messages()[1 + |r.reply.calls|..] == [];
    }
  }

  /** Every transcript built from rounds is well paired, and counts what the rounds count. */
  lemma {:induction false} TranscriptShape(start: seq<Message>, rounds: seq<Round>)
    requires Paired(start) && AllValid(rounds)
    ensures var ms := Transcript(start, rounds);
            && Paired(ms) && start <= ms
            && ToolResults(ms) == ToolResults(start) + CallCount(rounds)
            && Continuations(ms) == Continuations(start) + CutOffs(rounds)
    decreases |rounds|
  {
    if rounds != [] {
      var front, r := rounds[..|rounds| - 1], rounds[|rounds| - 1];
      TranscriptShape(start, front);
      RoundShape(r);
      PairedAppend(Transcript(start, front), r.Messages());
      CountsAppend(Transcript(start, front), r.Messages());
    }
  }

  // The code.

  method CallWithRetry(w: World, asked: nat, messages: seq<Message>) returns (resp: Response, n: nat)
    ensures asked < n <= asked + MAX_LLM_RETRIES
    ensures resp == Asked(w, n - 1, messages)
    ensures forall k :: asked <= k < n - 1 ==> Asked(w, k, messages).Transient?
    ensures resp.Transient? ==> n == asked + MAX_LLM_RETRIES
  {
    n := asked;
    resp := Transient;
    while n < asked + MAX_LLM_RETRIES
      invariant asked <= n <= asked + MAX_LLM_RETRIES
      invariant forall k :: asked <= k < n ==> Asked(w, k, messages).Transient?
      invariant resp.Transient?
    {
      resp := Asked(w, n, messages);
      n := n + 1;
      if !resp.Transient? {
        return;
      }
    }
  }

  method ExecuteToolCalls(w: World, round: nat, calls: seq<Call>, messages: seq<Message>) returns (out: seq<Message>, contents: seq<string>)
    ensures |contents| == |calls| && out == messages + Results(calls, contents)
    ensures forall k :: 0 <= k < |calls| ==> out[|messages| + k] == ToolResult(contents[k], calls[k].id)
    ensures forall k :: 0 <= k < |calls| ==> contents[k] == ContentOf(calls[k], Tool(w, round, k, calls[k]))
    ensures forall k :: 0 <= k < |calls| && Tool(w, round, k, calls[k]).Ran? ==> contents[k] == Tool(w, round, k, calls[k]).result
  {
    out, contents := messages, [];
    RanText(w, round, calls);
    hide ContentOf, Tool;
    for k := 0 to |calls|
      invariant |contents| == k && out == messages + Results(calls[..k], contents)
      invariant forall i :: 0 <= i < k ==> contents[i] == ContentOf(calls[i], Tool(w, round, i, calls[i]))
    {
      var content := ContentOf(calls[k], Tool(w, round, k, calls[k]));
      ResultsSnoc(calls[..k], contents, calls[k], content);
      assert calls[..k + 1] == calls[..k] + [calls[k]];
      out, contents := out + [ToolResult(content, calls[k].id)], contents + [content];
    }
    assert calls[..|calls|] == calls;
  }

  /** The text of a tool that ran is what it returned; the others name the tool. */
  lemma RanText(w: World, round: nat, calls: seq<Call>)
    ensures forall k :: 0 <= k < |calls| ==>
              match Tool(w, round, k, calls[k])
              case Ran(result) => ContentOf(calls[k], Tool(w, round, k, calls[k])) == result
              case UnknownTool => ContentOf(calls[k], Tool(w, round, k, calls[k])) == "unknown tool " + calls[k].name
              case BadArguments => ContentOf(calls[k], Tool(w, round, k, calls[k])) == "invalid JSON arguments for tool " + calls[k].name
              case ToolError => ContentOf(calls[k], Tool(w, round, k, calls[k])) == "tool " + calls[k].name + " failed"
  {
  }

  lemma ResultsSnoc(calls: seq<Call>, contents: seq<string>, c: Call, content: string)
    requires |calls| == |contents|
    ensures Results(calls + [c], contents + [content]) == Results(calls, contents) + [ToolResult(content, c.id)]
  {
  }

  /** How a run of the loop ended. */
  datatype Ending = Finished(content: string) | Exhausted | CutShort(content: string) | Failed

  datatype Turn = Stop(end: Ending) | Go(reply: Reply)

  /** What one model call leads to: the `n`-th request gave the answer, and it decides whether the loop goes on. */
  predicate Decides(w: World, n: nat, messages: seq<Message>, cutOffs: nat, turn: Turn, cutOffs': nat) {
    && n > 0
    && match turn
       case Stop(end) => cutOffs' == cutOffs && StopsWith(w, n, messages, cutOffs, end)
       case Go(reply) =>
         && Asked(w, n - 1, messages) == Answered(reply)
         && (reply.calls == [] ==> reply.outOfTokens)
         && cutOffs' == cutOffs + (if reply.calls == [] then 1 else 0) < MAX_CONTINUATIONS
  }

  predicate StopsWith(w: World, n: nat, messages: seq<Message>, cutOffs: nat, end: Ending)
    requires n > 0
  {
    match end
    case Exhausted => false
    case Finished(content) => Asked(w, n - 1, messages) == Answered(Reply(content, [], false))
    case CutShort(content) =>
      Asked(w, n - 1, messages) == Answered(Reply(content, [], true)) && cutOffs == MAX_CONTINUATIONS - 1
    case Failed => !Asked(w, n - 1, messages).Answered?
  }

  /** One model call, and whether the loop goes on after it. */
  method Ask(w: World, asked: nat, messages: seq<Message>, cutOffs: nat) returns (turn: Turn, n: nat, continuationCount: nat)
    requires cutOffs < MAX_CONTINUATIONS
    ensures asked < n <= asked + MAX_LLM_RETRIES
    ensures Decides(w, n, messages, cutOffs, turn, continuationCount) && continuationCount < MAX_CONTINUATIONS
    ensures turn.Go? && turn.reply.calls == [] ==> turn.reply.outOfTokens
  {
    continuationCount := cutOffs;
    var resp;
    resp, n := CallWithRetry(w, asked, messages);
    if !resp.Answered? {
      return Stop(Failed), n, cutOffs;
    }
    var reply := resp.reply;
    assert reply == Reply(reply.content, reply.calls, reply.outOfTokens);
    if |reply.calls| == 0 {
      if !reply.outOfTokens {
        return Stop(Finished(reply.content)), n, cutOffs;
      }
      continuationCount := continuationCount + 1;
      if continuationCount >= MAX_CONTINUATIONS {
        return Stop(CutShort(reply.content)), n, cutOffs;
      }
    }
    turn := Go(reply);
  }

  /** The record a run leaves: the transcript of every model call, what each reply added, and the requests made. */
  datatype Log = Log(sent: seq<seq<Message>>, rounds: seq<Round>, asked: nat)

  /** What holds between two turns of the loop. */
  ghost predicate Progress(w: World, start: seq<Message>, messages: seq<Message>, totalToolCalls: nat, log: Log,
                           cutOffs: nat) {
    && AllValid(log.rounds) && messages == Transcript(start, log.rounds)
    && |log.sent| == |log.rounds| && log.asked <= MAX_LLM_RETRIES * |log.sent|
    && SentInOrder(start, log.rounds, log.sent) && FromModel(w, log.rounds, log.sent)
    && totalToolCalls == CallCount(log.rounds) && cutOffs == CutOffs(log.rounds) < MAX_CONTINUATIONS
  }

  function Logged(log: Log, messages: seq<Message>, round: Round, asked: nat): Log {
    Log(log.sent + [messages], log.rounds + [round], asked)
  }

  lemma RoundTaken(w: World, start: seq<Message>, messages: seq<Message>, totalToolCalls: nat, log: Log, cutOffs: nat,
                   round: Round, asked: nat, cutOffs': nat)
    requires Paired(start) && Progress(w, start, messages, totalToolCalls, log, cutOffs)
    requires round.Valid() && log.asked < asked <= log.asked + MAX_LLM_RETRIES
    requires Decides(w, asked, messages, cutOffs, Go(round.reply), cutOffs') && FromTools(w, |log.rounds|, round)
    ensures Progress(w, start, messages + round.Messages(), totalToolCalls + |round.reply.calls|,
                     Logged(log, messages, round, asked), cutOffs')
  {
    hide FromModel, FromTools, Asked, Paired, SentInOrder, Round.Messages, Round.Valid;
    TranscriptShape(start, log.rounds);
    Sending(w, start, log.rounds, log.sent);
    RoundAdded(start, log.rounds, round);
    hide AllValid, Transcript;
    NextFromModel(w, log.rounds, log.sent + [messages], round, asked - 1);
  }

  /** The loop's account of itself: what it sent, what it was answered, and what it counted. */
  ghost predicate Account(w: World, start: seq<Message>, messages: seq<Message>, totalToolCalls: nat, log: Log) {
    && AllValid(log.rounds) && messages == Transcript(start, log.rounds)
    && |log.rounds| <= |log.sent| <= |log.rounds| + 1 && log.asked <= MAX_LLM_RETRIES * |log.sent|
    && SentInOrder(start, log.rounds, log.sent) && FromModel(w, log.rounds, log.sent)
    && totalToolCalls == CallCount(log.rounds) && ToolResults(messages) == ToolResults(start) + totalToolCalls
    && CutOffs(log.rounds) <= MAX_CONTINUATIONS - 1
    && Continuations(messages) <= Continuations(start) + MAX_CONTINUATIONS - 1
  }

  /** How the run ended fits the last answer and what the log holds. */
  predicate EndsWith(w: World, end: Ending, messages: seq<Message>, log: Log, maxIter: nat) {
    && |log.sent| <= maxIter
    && (end.Exhausted? <==> |log.rounds| == maxIter)
    && (!end.Exhausted? ==> log.asked > 0 && |log.sent| == |log.rounds| + 1)
    && (!end.Exhausted? ==> StopsWith(w, log.asked, messages, CutOffs(log.rounds), end))
  }

  lemma Exhausts(w: World, start: seq<Message>, messages: seq<Message>, totalToolCalls: nat, log: Log, cutOffs: nat)
    requires Paired(start) && Progress(w, start, messages, totalToolCalls, log, cutOffs)
    ensures Account(w, start, messages, totalToolCalls, log) && EndsWith(w, Exhausted, messages, log, |log.rounds|)
  {
    TranscriptShape(start, log.rounds);
  }

  lemma Stops(w: World, start: seq<Message>, messages: seq<Message>, totalToolCalls: nat, log: Log, cutOffs: nat,
              asked: nat, end: Ending, maxIter: nat)
    requires Paired(start) && Progress(w, start, messages, totalToolCalls, log, cutOffs) && |log.rounds| < maxIter
    requires log.asked < asked <= log.asked + MAX_LLM_RETRIES && Decides(w, asked, messages, cutOffs, Stop(end), cutOffs)
    ensures Account(w, start, messages, totalToolCalls, Log(log.sent + [messages], log.rounds, asked))
    ensures EndsWith(w, end, messages, Log(log.sent + [messages], log.rounds, asked), maxIter)
  {
    hide Asked, Paired, FromModel, SentInOrder;
    TranscriptShape(start, log.rounds);
    Sending(w, start, log.rounds, log.sent);
  }

  /** The loop: ask, stop or go on, and never more than `maxIter` rounds. */
  method RunToolLoop(w: World, start: seq<Message>, maxIter: nat)
    returns (end: Ending, messages: seq<Message>, totalToolCalls: nat, log: Log)
    requires Paired(start)
    ensures Account(w, start, messages, totalToolCalls, log)
    ensures EndsWith(w, end, messages, log, maxIter)
  {
    messages, totalToolCalls, log := start, 0, Log([], [], 0);
    var continuationCount: nat := 0;
    assert Progress(w, start, start, 0, log, 0);
    hide Progress, Account, EndsWith, Decides, Paired, Round.Messages, Round.Valid, FromTools;
    for i := 0 to maxIter
      invariant |log.sent| == |log.rounds| == i && continuationCount < MAX_CONTINUATIONS
      invariant Progress(w, start, messages, totalToolCalls, log, continuationCount)
    {
      var turn, n, cutOffs := Ask(w, log.asked, messages, continuationCount);
      if turn.Stop? {
        end := turn.end;
        Stops(w, start, messages, totalToolCalls, log, continuationCount, n, end, maxIter);
        log := Log(log.sent + [messages], log.rounds, n);
        return;
      }
      var next, round := Extend(w, i, turn.reply, messages);
      RoundTaken(w, start, messages, totalToolCalls, log, continuationCount, round, n, cutOffs);
      log := Logged(log, messages, round, n);
      messages, totalToolCalls, continuationCount := next, totalToolCalls + |turn.reply.calls|, cutOffs;
    }
    Exhausts(w, start, messages, totalToolCalls, log, continuationCount);
    end := Exhausted;
  }

  /** What a round adds: the assistant message, then its tool results or the prompt to go on. */
  method Extend(w: World, i: nat, reply: Reply, start: seq<Message>) returns (messages: seq<Message>, round: Round)
    requires reply.calls == [] ==> reply.outOfTokens
    ensures round.Valid() && round.reply == reply && messages == start + round.Messages()
    ensures FromTools(w, i, round)
  {
    messages := start + [Assistant(reply.content, reply.calls)];
    if |reply.calls| == 0 {
      messages := messages + [User(CONTINUE)];
      round := Round(reply, []);
    } else {
      var contents;
      messages, contents := ExecuteToolCalls(w, i, reply.calls, messages);
      round := Round(reply, contents);
    }
  }

  lemma RoundAdded(start: seq<Message>, rounds: seq<Round>, round: Round)
    requires round.Valid() && AllValid(rounds)
    ensures var more := rounds + [round];
            && AllValid(more)
            && Transcript(start, more) == Transcript(start, rounds) + round.Messages()
            && (forall sent :: SentInOrder(start, rounds, sent) ==> SentInOrder(start, more, sent))
            && CallCount(more) == CallCount(rounds) + |round.reply.calls|
            && CutOffs(more) == CutOffs(rounds) + if round.reply.calls == [] then 1 else 0
  {
    var more := rounds + [round];
    assert more[..|rounds|] == rounds;
    assert forall k :: 0 <= k <= |rounds| ==> more[..k] == rounds[..k];
  }

  lemma NextFromModel(w: World, rounds: seq<Round>, sent: seq<seq<Message>>, round: Round, n: nat)
    requires |sent| == |rounds| + 1 && FromModel(w, rounds, sent)
    requires Asked(w, n, sent[|rounds|]) == Answered(round.reply) && FromTools(w, |rounds|, round)
    ensures FromModel(w, rounds + [round], sent)
  {
    assert Replied(w, sent[|rounds|], round.reply);
  }

  lemma Sending(w: World, start: seq<Message>, rounds: seq<Round>, sent: seq<seq<Message>>)
    requires AllValid(rounds) && Paired(Transcript(start, rounds))
    requires SentInOrder(start, rounds, sent) && |sent| == |rounds|
    ensures SentInOrder(start, rounds, sent + [Transcript(start, rounds)])
    ensures FromModel(w, rounds, sent) ==> FromModel(w, rounds, sent + [Transcript(start, rounds)])
  {
    assert rounds[..|rounds|] == rounds;
  }
}
