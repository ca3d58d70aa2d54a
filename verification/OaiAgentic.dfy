// The tool-calling loop over an OpenAI-compatible server: every turn ends, because each retry after
// a context overflow evicts a tool result that was not evicted before.

module OaiAgentic {
  import opened Common
  import opened PyText

  datatype Role = System | User | Assistant | Tool

  datatype Message = Message(role: Role, content: Option<string>)

  datatype Reply =
    | Response(content: Option<string>, calls: seq<string>)
    | BadRequest(saysCompletion: bool, overflow: bool)
    | Status(transient: bool)
    | NoConnection
    | Crash                    // any other exception

  // What the server answers to its n-th request, with these messages and that name of the token limit.
  type Server = (nat, seq<Message>, bool) -> Reply

  // ---- tool results in the history ----

  const RESULT_CAP := 48000
  const KEEP := 800
  const BIG := 1200
  const MARK := "[evicted to fit context]"
  const CUT := "\n\U{2026}"

  predicate EndsWith(s: string, t: string) { |t| <= |s| && s[|s|-|t|..] == t }

  function Capped(result: string): string {
    if |result| <= RESULT_CAP then result
    else result[..RESULT_CAP] + "\n" + CUT + "[truncated " + NatText(|result| - RESULT_CAP)
         + " chars to fit context \U{2014} re-read a specific line range with Read offset/limit if you need more]"
  }

  predicate Oversized(m: Message) {
    m.role == Tool && m.content.Some? && |m.content.value| > BIG && !EndsWith(m.content.value, MARK)
  }

  function Evicted(m: Message): Message
    requires Oversized(m)
  {
    m.(content := Some(m.content.value[..KEEP] + CUT + MARK))
  }

  // An evicted result is small and marked: it is never evicted again.
  lemma EvictedStays(m: Message)
    requires Oversized(m)
    ensures !Oversized(Evicted(m)) && Evicted(m).role == Tool
    ensures |Evicted(m).content.value| <= BIG && EndsWith(Evicted(m).content.value, MARK)
    ensures m.content.value[..KEEP] <= Evicted(m).content.value
  {
    var c := m.content.value[..KEEP] + CUT + MARK;
    assert c[|c|-|MARK|..] == MARK;
    assert c[..KEEP] == m.content.value[..KEEP];
  }

  ghost predicate NoRepeats(s: seq<nat>) { forall i, j | 0 <= i < j < |s| :: s[i] != s[j] }

  // b is a with the tool results at the given places evicted, each once.
  ghost predicate Trimmed(a: seq<Message>, b: seq<Message>, places: seq<nat>) {
    && |a| == |b| && NoRepeats(places)
    && (forall k | 0 <= k < |places| :: places[k] < |a| && Oversized(a[places[k]]))
    && (forall i | 0 <= i < |a| :: b[i] == if i in places && Oversized(a[i]) then Evicted(a[i]) else a[i])
  }

  lemma TrimmedMore(a: seq<Message>, b: seq<Message>, places: seq<nat>, m: Message)
    requires Trimmed(a, b, places)
    ensures Trimmed(a + [m], b + [m], places)
  {
  }

  lemma TrimmedAgain(a: seq<Message>, b: seq<Message>, places: seq<nat>, at: nat)
    requires Trimmed(a, b, places) && at < |b| && Oversized(b[at])
    ensures at !in places && Trimmed(a, b[at := Evicted(b[at])], places + [at])
  {
    if Oversized(a[at]) { EvictedStays(a[at]); }
    var c, more := b[at := Evicted(b[at])], places + [at];
    assert forall i :: i in more <==> i in places || i == at;
  }

  // What the system and the user said stays, and every tool result keeps its first 800 characters.
  lemma TrimmedKeeps(a: seq<Message>, b: seq<Message>, places: seq<nat>, i: nat)
    requires Trimmed(a, b, places) && i < |a|
    ensures b[i] == a[i] || (a[i].role == Tool && i in places && !Oversized(b[i]))
    ensures a[i].content.Some? ==> b[i].content.Some? && Head(a[i].content.value) <= b[i].content.value
  {
    if Oversized(a[i]) { EvictedStays(a[i]); }
  }

  function Head(s: string): string { if |s| <= KEEP then s else s[..KEEP] }

  // The first oversized tool result from place i on, or the end.
  function FirstBig(ms: seq<Message>, i: nat): (r: nat)
    requires i <= |ms|
    ensures i <= r <= |ms| && (r < |ms| ==> Oversized(ms[r])) && forall k | i <= k < r :: !Oversized(ms[k])
    decreases |ms| - i
  {
    if i == |ms| || Oversized(ms[i]) then i else FirstBig(ms, i + 1)
  }

  predicate CanShrink(ms: seq<Message>) { FirstBig(ms, 0) < |ms| }

  function Shrunk(ms: seq<Message>): (r: seq<Message>)
    requires CanShrink(ms)
    ensures |r| == |ms|
  {
    ms[FirstBig(ms, 0) := Evicted(ms[FirstBig(ms, 0)])]
  }

  // ---- what a turn and a conversation come to ----

  datatype Result = Ok(text: string) | Failed(why: Reply)

  const MAX_SHRINKS := 16
  const MAX_TRANSIENTS := 4
  const PER_TURN := MAX_SHRINKS + MAX_TRANSIENTS + 1

  // completion: the token limit goes by max_completion_tokens.
  datatype Talk = Talk(messages: seq<Message>, completion: bool, sends: nat)

  function Swapped(before: bool, after: bool): nat { if before && !after then 1 else 0 }

  // How many retries are left.
  function Measure(completion: bool, shrinks: nat, transients: nat): nat
    requires shrinks <= MAX_SHRINKS && transients <= MAX_TRANSIENTS
  {
    Swapped(completion, false) + (MAX_SHRINKS - shrinks) + (MAX_TRANSIENTS - transients)
  }

  predicate Transient(r: Reply) { r.NoConnection? || (r.Status? && r.transient) }

  // After a reply, if a retry may mend it: the talk to retry with, and the evictions and passing
  // failures counted.
  function Mended(t: Talk, reply: Reply, shrinks: nat, transients: nat): Option<(Talk, nat, nat)> {
    if reply.BadRequest? && t.completion && reply.saysCompletion then
      Some((t.(completion := false), shrinks, transients))
    else if reply.BadRequest? && reply.overflow && shrinks < MAX_SHRINKS && CanShrink(t.messages) then
      Some((t.(messages := Shrunk(t.messages)), shrinks + 1, transients))
    else if Transient(reply) && transients < MAX_TRANSIENTS then Some((t, shrinks, transients + 1))
    else None
  }

  predicate IsMended(m: Option<(Talk, nat, nat)>, t: Talk, shrinks0: nat, transients0: nat,
                     again: bool, u: Talk, shrinks: nat, transients: nat) {
    match m
    case None => !again && u == t && shrinks == shrinks0 && transients == transients0
    case Some(v) => again && v == (u, shrinks, transients)
  }

  // Sending until there is a response or an error that no retry mends.
  function TurnFrom(server: Server, t: Talk, shrinks: nat, transients: nat): (Reply, Talk)
    requires shrinks <= MAX_SHRINKS && transients <= MAX_TRANSIENTS
    decreases Measure(t.completion, shrinks, transients)
  {
    var reply := server(t.sends, t.messages, t.completion);
    var next := t.(sends := t.sends + 1);
    match Mended(next, reply, shrinks, transients)
    case None => (reply, next)
    case Some(m) => TurnFrom(server, m.0, m.1, m.2)
  }

  function Text(content: Option<string>): string { match content case None => "" case Some(t) => TrimEnd(TrimStart(t)) }

  function ToolResult(result: string): Message { Message(Tool, Some(Capped(result))) }

  function Answering(execute: string -> string): string -> Message { call => ToolResult(execute(call)) }

  function ToolResults(calls: seq<string>, tool: string -> Message): (r: seq<Message>)
    ensures |r| == |calls|
  {
    if calls == [] then []
    else ToolResults(calls[..|calls|-1], tool) + [tool(calls[|calls|-1])]
  }

  function LastRequest(): Message {
    Message(User, Some("Tool budget exhausted. Reply now with your final answer "
                       + "based on what you have read so far; do not call tools."))
  }

  function Said(t: Talk, m: Message): Talk { t.(messages := t.messages + [m]) }

  // What comes of a turn: the end, or the talk to go on from, with the results of the tools called.
  function AfterTurn(server: Server, tool: string -> Message, t: Talk): (Option<Result>, Talk) {
    var (reply, next) := TurnFrom(server, t, 0, 0);
    if !reply.Response? then (Some(Failed(reply)), next)
    else
      var said := Said(next, Message(Assistant, reply.content));
      if reply.calls == [] then (Some(Ok(Text(reply.content))), said)
      else (None, said.(messages := said.messages + ToolResults(reply.calls, tool)))
  }

  // The last request, once the turns are used up.
  function AfterAll(server: Server, t: Talk, last: Message): (Result, Talk) {
    var asked := Said(t, last);
    var reply := server(asked.sends, asked.messages, asked.completion);
    (if reply.Response? then Ok(Text(reply.content)) else Failed(reply), asked.(sends := asked.sends + 1))
  }

  function Converse(server: Server, tool: string -> Message, last: Message, t: Talk, turns: nat): (Result, Talk)
    decreases turns
  {
    if turns == 0 then AfterAll(server, t, last)
    else
      var (end, next) := AfterTurn(server, tool, t);
      if end.Some? then (end.value, next) else Converse(server, tool, last, next, turns - 1)
  }

  // ---- what they are good for ----

  // The reply of a turn is the server's answer to its last request, which no retry mends: a passing
  // failure only after all the retries, an overflow only with nothing left to evict or after all the
  // evictions.  `shrinks` and `transients` become the numbers used in the end.
  ghost predicate TurnTells(server: Server, t: Talk, shrinks: nat, transients: nat,
                            reply: Reply, u: Talk, s: nat, r: nat) {
    && shrinks <= s <= MAX_SHRINKS && transients <= r <= MAX_TRANSIENTS
    && (u.completion ==> t.completion) && |u.messages| == |t.messages|
    && u.sends == t.sends + 1 + (s - shrinks) + (r - transients) + Swapped(t.completion, u.completion)
    && reply == server(u.sends - 1, u.messages, u.completion)
    && (Transient(reply) ==> r == MAX_TRANSIENTS)
    && (reply.BadRequest? ==> !(u.completion && reply.saysCompletion))
    && (reply.BadRequest? && reply.overflow ==> s == MAX_SHRINKS || !CanShrink(u.messages))
  }

  lemma {:induction false} TurnEnds(
      server: Server, t: Talk, shrinks: nat, transients: nat, reply: Reply, u: Talk)
    returns (s: nat, r: nat)
    requires shrinks <= MAX_SHRINKS && transients <= MAX_TRANSIENTS
    requires (reply, u) == TurnFrom(server, t, shrinks, transients)
    ensures TurnTells(server, t, shrinks, transients, reply, u, s, r)
    decreases Measure(t.completion, shrinks, transients)
  {
    var m := Mended(t.(sends := t.sends + 1), server(t.sends, t.messages, t.completion), shrinks, transients);
    if m.Some? {
      s, r := TurnEnds(server, m.value.0, m.value.1, m.value.2, reply, u);
    } else {
      s, r := shrinks, transients;
    }
  }

  // The result is the reply to the last request, whose messages are the first of those there are.
  ghost predicate LastWord(server: Server, result: Result, u: Talk) {
    u.sends > 0 && exists n | 0 <= n <= |u.messages| ::
        Answers(server(u.sends - 1, u.messages[..n], u.completion), result)
  }

  predicate Answers(reply: Reply, result: Result) {
    match result
    case Ok(text) => reply.Response? && text == Text(reply.content)
    case Failed(why) => reply == why && !why.Response?
  }

  lemma TurnHasLastWord(
      server: Server, tool: string -> Message, t: Talk, end: Option<Result>, u: Talk)
    requires (end, u) == AfterTurn(server, tool, t)
    ensures end.Some? ==> LastWord(server, end.value, u)
    ensures t.sends < u.sends <= t.sends + PER_TURN + Swapped(t.completion, u.completion)
    ensures (u.completion ==> t.completion) && |t.messages| <= |u.messages|
  {
    var (reply, next) := TurnFrom(server, t, 0, 0);
    var s, r := TurnEnds(server, t, 0, 0, reply, next);
    assert u.messages[..|next.messages|] == next.messages;
    if end.Some? { assert Answers(reply, end.value); }
  }

  lemma AllHasLastWord(
      server: Server, t: Talk, last: Message, result: Result, u: Talk)
    requires (result, u) == AfterAll(server, t, last)
    ensures LastWord(server, result, u) && u.sends == t.sends + 1 && u.completion == t.completion
  {
    var asked := Said(t, last);
    assert u.messages[..|u.messages|] == asked.messages;
    assert Answers(server(u.sends - 1, u.messages[..|u.messages|], u.completion), result);
  }

  // A conversation ends within 21 requests a turn, one for a renaming and the last; its result is
  // what the server answered to the last request of all.
  lemma {:induction false} ConversationEnds(server: Server,
                                            tool: string -> Message, last: Message, t: Talk, turns: nat,
                                            result: Result, u: Talk)
    requires (result, u) == Converse(server, tool, last, t, turns)
    ensures t.sends < u.sends <= t.sends + PER_TURN * turns + 1 + Swapped(t.completion, u.completion)
    ensures (u.completion ==> t.completion) && LastWord(server, result, u)
    decreases turns
  {
    if turns > 0 {
      var (end, next) := AfterTurn(server, tool, t);
      TurnHasLastWord(server, tool, t, end, next);
      if end == None { ConversationEnds(server, tool, last, next, turns - 1, result, u); }
    } else {
      AllHasLastWord(server, t, last, result, u);
    }
  }

  // ---- the loops ----

  class Chat {
    const server: Server
    var messages: seq<Message>
    var completion: bool          // the token limit goes by max_completion_tokens
    var sends: nat
    ghost var evicted: seq<nat>   // the messages evicted so far, in turn
    ghost var full: seq<Message>  // every message as it was added

    constructor (server: Server, start: seq<Message>, completion: bool)
      ensures Valid() && this.server == server && full == start && Now() == Talk(start, completion, 0)
    {
      this.server, this.full, this.messages, this.completion, this.sends := server, start, start, completion, 0;
      evicted := [];
    }

    ghost function Now(): Talk
      reads this
    {
      Talk(messages, completion, sends)
    }

    // The history is all that was added, but for the tool results evicted, each of them once.
    ghost predicate Valid()
      reads this
    {
      Trimmed(full, messages, evicted)
    }

    // Evict the oldest oversized tool result that is left, if there is one.
    method ShrinkHistory() returns (shrunk: bool)
      requires Valid()
      modifies this`messages, this`evicted
      ensures Valid() && shrunk == CanShrink(old(messages))
      ensures messages == if shrunk then Shrunk(old(messages)) else old(messages)
      ensures evicted == if shrunk then old(evicted) + [FirstBig(old(messages), 0)] else old(evicted)
    {
      for i := 0 to |messages|
        invariant FirstBig(messages, 0) == FirstBig(messages, i) && messages == old(messages) && evicted == old(evicted)
      {
        if Oversized(messages[i]) {
          TrimmedAgain(full, messages, evicted, i);
          messages := messages[i := Evicted(messages[i])];
          evicted := evicted + [i];
          return true;
        }
      }
      return false;
    }

    method Ask() returns (reply: Reply)
      requires Valid()
      modifies this
      ensures Valid() && full == old(full) && old(evicted) <= evicted
      ensures (reply, Now()) == TurnFrom(server, old(Now()), 0, 0)
      ensures |evicted| <= |old(evicted)| + MAX_SHRINKS
    {
      reply := Crash;
      var shrinks: nat, transients: nat := 0, 0;
      var again := true;
      while again
        invariant Valid() && full == old(full) && old(evicted) <= evicted
        invariant shrinks <= MAX_SHRINKS && transients <= MAX_TRANSIENTS && |evicted| == |old(evicted)| + shrinks
        invariant again ==> TurnFrom(server, Now(), shrinks, transients) == TurnFrom(server, old(Now()), 0, 0)
        invariant !again ==> (reply, Now()) == TurnFrom(server, old(Now()), 0, 0)
        decreases again, Measure(completion, shrinks, transients)
      {
        reply, again, shrinks, transients := AskOnce(shrinks, transients);
      }
    }

    method AskOnce(shrinks0: nat, transients0: nat) returns (reply: Reply, again: bool, shrinks: nat, transients: nat)
      requires Valid() && shrinks0 <= MAX_SHRINKS && transients0 <= MAX_TRANSIENTS
      modifies this
      ensures Valid() && full == old(full) && old(evicted) <= evicted && sends == old(sends) + 1
      ensures shrinks0 <= shrinks <= MAX_SHRINKS && transients0 <= transients <= MAX_TRANSIENTS
      ensures |evicted| == |old(evicted)| + (shrinks - shrinks0)
      ensures again ==> Measure(completion, shrinks, transients) < Measure(old(completion), shrinks0, transients0)
      ensures TurnFrom(server, old(Now()), shrinks0, transients0)
           == if again then TurnFrom(server, Now(), shrinks, transients) else (reply, Now())
    {
      reply := server(sends, messages, completion);
      sends := sends + 1;
      again, shrinks, transients := Mend(reply, shrinks0, transients0);
    }

    // Rename, evict, or wait, when a retry may help.
    method Mend(reply: Reply, shrinks0: nat, transients0: nat) returns (again: bool, shrinks: nat, transients: nat)
      requires Valid()
      modifies this`messages, this`evicted, this`completion
      ensures Valid() && old(evicted) <= evicted
      ensures shrinks0 <= shrinks && |evicted| == |old(evicted)| + (shrinks - shrinks0)
      ensures IsMended(Mended(old(Now()), reply, shrinks0, transients0), old(Now()), shrinks0, transients0,
                       again, Now(), shrinks, transients)
    {
      again, shrinks, transients := false, shrinks0, transients0;
      if reply.BadRequest? {
        again, shrinks := MendRequest(reply, shrinks0, transients0, Mended(Now(), reply, shrinks0, transients0));
      } else if Transient(reply) && transients < MAX_TRANSIENTS {
        again, transients := true, transients + 1;
      }
    }

    method MendRequest(reply: Reply, shrinks0: nat, ghost transients: nat, ghost m: Option<(Talk, nat, nat)>)
      returns (again: bool, shrinks: nat)
      requires Valid() && reply.BadRequest? && m == Mended(Now(), reply, shrinks0, transients)
      modifies this`messages, this`evicted, this`completion
      ensures Valid() && old(evicted) <= evicted
      ensures shrinks0 <= shrinks && |evicted| == |old(evicted)| + (shrinks - shrinks0)
      ensures IsMended(m, old(Now()), shrinks0, transients, again, Now(), shrinks, transients)
    {
      again, shrinks := false, shrinks0;
      if completion && reply.saysCompletion {
        completion := false;
        return true, shrinks;
      }
      if !reply.overflow || shrinks >= MAX_SHRINKS { return; }
      again := ShrinkHistory();
      if again { shrinks := shrinks + 1; }
    }

    method Add(m: Message)
      requires Valid()
      modifies this`messages, this`full
      ensures Valid() && full == old(full) + [m] && messages == old(messages) + [m]
    {
      TrimmedMore(full, messages, evicted, m);
      messages, full := messages + [m], full + [m];
    }

    method AddResults(calls: seq<string>, tool: string -> Message)
      requires Valid()
      modifies this`messages, this`full
      ensures Valid() && messages == old(messages) + ToolResults(calls, tool)
      ensures full == old(full) + ToolResults(calls, tool)
    {
      for k := 0 to |calls|
        invariant Valid() && messages == old(messages) + ToolResults(calls[..k], tool)
        invariant full == old(full) + ToolResults(calls[..k], tool)
      {
        ResultsNext(calls, tool, k);
        Add(tool(calls[k]));
      }
      assert calls[..|calls|] == calls;
    }

    method Turn(tool: string -> Message) returns (end: Option<Result>)
      requires Valid()
      modifies this
      ensures Valid() && old(full) <= full && old(evicted) <= evicted
      ensures (end, Now()) == AfterTurn(server, tool, old(Now()))
      ensures |evicted| <= |old(evicted)| + MAX_SHRINKS
    {
      var reply := Ask();
      if !reply.Response? { return Some(Failed(reply)); }
      Add(Message(Assistant, reply.content));
      if reply.calls == [] { return Some(Ok(Text(reply.content))); }
      AddResults(reply.calls, tool);
      return None;
    }

    method Run(maxTurns: nat, execute: string -> string) returns (result: Result)
      requires Valid()
      modifies this
      ensures Valid() && old(full) <= full && old(evicted) <= evicted
      ensures (result, Now()) == Converse(server, Answering(execute), LastRequest(), old(Now()), maxTurns)
      ensures |evicted| <= |old(evicted)| + MAX_SHRINKS * maxTurns
    {
      result := RunWith(maxTurns, Answering(execute), LastRequest());
    }

    method RunWith(maxTurns: nat, tool: string -> Message, last: Message) returns (result: Result)
      requires Valid()
      modifies this
      ensures Valid() && old(full) <= full && old(evicted) <= evicted
      ensures (result, Now()) == Converse(server, tool, last, old(Now()), maxTurns)
      ensures |evicted| <= |old(evicted)| + MAX_SHRINKS * maxTurns
    {
      for turn := 0 to maxTurns
        invariant Valid() && old(full) <= full && old(evicted) <= evicted
        invariant Converse(server, tool, last, Now(), maxTurns - turn)
            == Converse(server, tool, last, old(Now()), maxTurns)
        invariant |evicted| <= |old(evicted)| + MAX_SHRINKS * turn
      {
        var end := Turn(tool);
        if end.Some? { return end.value; }
      }
      Add(last);
      var reply := server(sends, messages, completion);
      sends := sends + 1;
      return if reply.Response? then Ok(Text(reply.content)) else Failed(reply);
    }
  }

  lemma ResultsNext(calls: seq<string>, tool: string -> Message, k: nat)
    requires k < |calls|
    ensures ToolResults(calls[..k+1], tool) == ToolResults(calls[..k], tool) + [tool(calls[k])]
  {
    assert calls[..k+1][..k] == calls[..k];
  }
}
