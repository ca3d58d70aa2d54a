// What the turns of a tool-calling conversation add to it, and how failures on the way are mended.

module ToolTurns {
  import opened Common
  import opened PyText
  import opened OaiAgentic

  // ---- what a turn adds ----

  // A tool message that answers a call: the result, or its first 48000 characters and a note.
  predicate IsAnswer(m: Message, result: string) {
    && m.role == Tool && m.content.Some?
    && if |result| <= 48000 then m.content.value == result
       else |m.content.value| > 48000 && m.content.value[..48000] == result[..48000]
  }

  lemma ResultIsTold(result: string)
    ensures IsAnswer(ToolResult(result), result)
  {
    if |result| > 48000 { assert ToolResult(result).content.value[..48000] == result[..48000]; }
  }

  lemma {:induction false} ResultsAreTold(calls: seq<string>, execute: string -> string)
    ensures forall k | 0 <= k < |calls| :: IsAnswer(ToolResults(calls, Answering(execute))[k], execute(calls[k]))
  {
    if calls != [] {
      ResultsAreTold(calls[..|calls|-1], execute);
      ResultIsTold(execute(calls[|calls|-1]));
    }
  }

  // A response with tool calls adds what it says, and then an answer to each call, in order.
  lemma ToolsAreAnswered(server: Server, execute: string -> string, t: Talk, reply: Reply, next: Talk)
    requires (reply, next) == TurnFrom(server, t, 0, 0) && reply.Response? && reply.calls != []
    ensures var (end, u) := AfterTurn(server, Answering(execute), t); var n := |next.messages|;
      && end == None && u.sends == next.sends && u.completion == next.completion
      && |u.messages| == n + 1 + |reply.calls| && u.messages[..n] == next.messages
      && u.messages[n] == Message(Assistant, reply.content)
      && forall k | 0 <= k < |reply.calls| :: IsAnswer(u.messages[n+1+k], execute(reply.calls[k]))
  {
    ResultsAreTold(reply.calls, execute);
  }

  // A response without any ends the conversation with its text.
  lemma TextIsReturned(
      server: Server, tool: string -> Message, last: Message, t: Talk, turns: nat, reply: Reply, next: Talk)
    requires turns > 0 && (reply, next) == TurnFrom(server, t, 0, 0) && reply.Response? && reply.calls == []
    ensures var (result, u) := Converse(server, tool, last, t, turns);
      && result == Ok(Text(reply.content))
      && u == next.(messages := next.messages + [Message(Assistant, reply.content)])
  {
  }

  // With the turns used up the model is asked once more, without tools, for its answer.
  lemma LastIsAsked(server: Server, tool: string -> Message, t: Talk)
    ensures var (result, u) := Converse(server, tool, LastRequest(), t, 0);
      && |u.messages| == |t.messages| + 1 && u.messages[..|t.messages|] == t.messages
      && u.messages[|t.messages|].role == User && u.sends == t.sends + 1
      && (match server(t.sends, u.messages, t.completion)
          case Response(content, _) => result == Ok(Text(content))
          case other => result == Failed(other))
  {
  }

  // The text without the blanks around it.
  lemma TextIsStripped(t: string) returns (a: string, b: string)
    ensures var r := Text(Some(t));
      && t == a + r + b && (forall i | 0 <= i < |a| :: IsSpace(a[i])) && (forall i | 0 <= i < |b| :: IsSpace(b[i]))
      && (r != "" ==> !IsSpace(r[0]) && !IsSpace(r[|r|-1]))
  {
    a := StartIsTrimmed(t);
    b := EndIsTrimmed(TrimStart(t));
    var r := TrimEnd(TrimStart(t));
    if r != "" { assert r[0] == TrimStart(t)[0]; }
  }

  // ---- what is mended on the way ----

  predicate Passing(r: Reply) { r == NoConnection || r == Status(true) }

  // Up to four passing failures are waited out.
  lemma {:induction false} PassingThenAnswer(server: Server, t: Talk, shrinks: nat, transients: nat, n: nat)
    requires shrinks <= 16 && transients + n <= 4
    requires forall k | t.sends <= k < t.sends + n :: Passing(server(k, t.messages, t.completion))
    requires server(t.sends + n, t.messages, t.completion).Response?
    ensures TurnFrom(server, t, shrinks, transients)
         == (server(t.sends + n, t.messages, t.completion), t.(sends := t.sends + n + 1))
    decreases n
  {
    if n > 0 {
      assert Passing(server(t.sends, t.messages, t.completion));
      PassingThenAnswer(server, t.(sends := t.sends + 1), shrinks, transients + 1, n - 1);
    }
  }

  predicate Ending(s: string, t: string) { |t| <= |s| && s[|s|-|t|..] == t }

  // A tool result that may be evicted, and what is left of it.
  predicate IsLarge(m: Message) {
    && m.role == Tool && m.content.Some? && |m.content.value| > 1200
    && !Ending(m.content.value, "[evicted to fit context]")
  }

  function Stub(m: Message): Message
    requires IsLarge(m)
  {
    m.(content := Some(m.content.value[..800] + "\n\U{2026}" + "[evicted to fit context]"))
  }

  // After an overflow the oldest large tool result is evicted, and the request sent again.
  lemma OverflowThenAnswer(server: Server, t: Talk, i: nat)
    requires i < |t.messages| && IsLarge(t.messages[i]) && forall k | 0 <= k < i :: !IsLarge(t.messages[k])
    requires server(t.sends, t.messages, t.completion) == BadRequest(false, true)
    requires server(t.sends + 1, t.messages[i := Stub(t.messages[i])], t.completion).Response?
    ensures var ms := t.messages[i := Stub(t.messages[i])];
      TurnFrom(server, t, 0, 0) == (server(t.sends + 1, ms, t.completion), Talk(ms, t.completion, t.sends + 2))
  {
    assert forall m :: IsLarge(m) <==> Oversized(m);
    var first := FirstBig(t.messages, 0);
    assert first == i;
    var ms := t.messages[i := Stub(t.messages[i])];
    PassingThenAnswer(server, Talk(ms, t.completion, t.sends + 1), 1, 0, 0);
  }

  // A server that does not know the new name of the token limit is asked by the old one.
  lemma RenamedThenAnswer(server: Server, t: Talk, overflow: bool)
    requires t.completion && server(t.sends, t.messages, true) == BadRequest(true, overflow)
    requires server(t.sends + 1, t.messages, false).Response?
    ensures TurnFrom(server, t, 0, 0)
         == (server(t.sends + 1, t.messages, false), Talk(t.messages, false, t.sends + 2))
  {
    PassingThenAnswer(server, Talk(t.messages, false, t.sends + 1), 0, 0, 0);
  }
}
