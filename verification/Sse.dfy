/**
 What the two streaming clients of llm/ share: lines of server-sent events, and the chunks handed to the
 caller's callback (llm/streaming.go).
 */
module Sse {
  import opened Wrappers

  datatype Usage = Usage(input: int, output: int)

  datatype ToolCall = ToolCall(id: string, name: string, arguments: string)

  /** One invocation of the callback. */
  datatype Chunk =
    | Text(text: string)
    | Tool(call: ToolCall)
    | Done(usage: Option<Usage>)
    | Error(message: string)

  /** What the callback has seen and whether parsing returned without an error. */
  datatype Outcome = Outcome(chunks: seq<Chunk>, ok: bool)

  const DATA: string := "data: "
  const DONE: string := "[DONE]"

  predicate HasData(line: string) { DATA <= line }

  /** A blank line, a comment, or a field other than data. */
  predicate Ignored(line: string) {
    line == "" || ":" <= line || !HasData(line)
  }

  /** The three tests of the loops come to one. */
  lemma IgnoredMeans(line: string)
    ensures Ignored(line) <==> !HasData(line)
  {
    if HasData(line) {
      assert line[0] == DATA[0];
    }
  }

  function TextOf(chunks: seq<Chunk>): string {
    if chunks == [] then "" else (if chunks[0].Text? then chunks[0].text else "") + TextOf(chunks[1..])
  }

  function CallsOf(chunks: seq<Chunk>): seq<ToolCall> {
    if chunks == [] then [] else (if chunks[0].Tool? then [chunks[0].call] else []) + CallsOf(chunks[1..])
  }

  lemma {:induction false} TextOfAppend(a: seq<Chunk>, b: seq<Chunk>)
    ensures TextOf(a + b) == TextOf(a) + TextOf(b)
    decreases |a|
  {
    if a == [] {
      assert a + b == b;
    } else {
      assert (a + b)[1..] == a[1..] + b;
      TextOfAppend(a[1..], b);
    }
  }

  lemma CallsOfFirst(a: seq<Chunk>)
    requires a != []
    ensures CallsOf(a) == (if a[0].Tool? then [a[0].call] else []) + CallsOf(a[1..])
  {
  }

  lemma {:induction false} CallsOfAppend(a: seq<Chunk>, b: seq<Chunk>)
    ensures CallsOf(a + b) == CallsOf(a) + CallsOf(b)
    decreases |a|
  {
    if a == [] {
      assert a + b == b;
    } else {
      assert (a + b)[0] == a[0] && (a + b)[1..] == a[1..] + b;
      CallsOfAppend(a[1..], b);
      hide CallsOf;
      CallsOfFirst(a);
      CallsOfFirst(a + b);
    }
  }

  /** What one more chunk adds. */
  lemma OneMore(a: seq<Chunk>, c: Chunk)
    ensures TextOf(a + [c]) == TextOf(a) + if c.Text? then c.text else ""
    ensures CallsOf(a + [c]) == CallsOf(a) + if c.Tool? then [c.call] else []
  {
    TextOfAppend(a, [c]);
    CallsOfAppend(a, [c]);
  }

  /** Nothing in `chunks` tells the caller that the stream has ended. */
  predicate Open(chunks: seq<Chunk>) {
    forall c :: c in chunks ==> c.Text? || c.Tool?
  }
}
