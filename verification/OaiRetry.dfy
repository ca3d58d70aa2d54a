// One prompt to an OpenAI-compatible server: retries after transient errors, and after dropping or
// renaming a parameter the server refuses.  The two names of the token limit may ping-pong.

module OaiRetry {
  import opened Common
  import opened RetryLoop

  // completion: the token limit goes by max_completion_tokens, not by max_tokens.
  datatype Request = Request(temperature: bool, completion: bool)

  datatype Reply =
    | Answer(text: string)
    | BadRequest(saysTemperature: bool, saysCompletion: bool)
    | Status(transient: bool)
    | NoConnection
    | Crash                    // any other exception

  // What is noted of a model: that it refuses a temperature, or wants the old name of the limit.
  datatype Note = NoTemperature | Legacy

  type Server = (nat, Request) -> Reply

  predicate DropsTemperature(q: Request, r: Reply) { r.BadRequest? && r.saysTemperature && q.temperature }

  predicate Drops(q: Request, r: Reply) { DropsTemperature(q, r) || (r.BadRequest? && r.saysCompletion) }

  function Cleaned(q: Request, r: Reply): Request {
    if DropsTemperature(q, r) then q.(temperature := false)
    else if Drops(q, r) then q.(completion := !q.completion)
    else q
  }

  predicate Transient(r: Reply) { r.NoConnection? || (r.Status? && r.transient) }

  function TextOf(r: Reply): Option<string> { match r case Answer(text) => Some(text) case _ => None }

  function Notes(q: Request, r: Reply): set<Note> {
    if DropsTemperature(q, r) then {NoTemperature} else if Drops(q, r) && q.completion then {Legacy} else {}
  }

  const RULES: Rules<Request, Reply, Note> := Rules(TextOf, Drops, Cleaned, Transient, Notes)

  predicate MayPass(r: Reply) { r == NoConnection || r == Status(true) }

  // Up to two failures that may pass before an answer cost a minute each, and nothing else.
  lemma FailuresPass(server: Server, q: Request, n: nat, text: string)
    requires n < 3 && server(n, q) == Answer(text) && forall k | 0 <= k < n :: MayPass(server(k, q))
    ensures Whole(RULES, server, q) == Run(Ok(text), seq(n + 1, _ => q), 60 * n, {})
  {
    forall k | 0 <= k < n ensures Passes(RULES, q, server(k, q)) { assert MayPass(server(k, q)); }
    PassingThenAnswer(RULES, server, q, 0, 3, n, text);
  }

  // A third is reported, and any other error at once.
  lemma ThirdFailureIsReported(server: Server, q: Request)
    requires MayPass(server(0, q)) && MayPass(server(1, q)) && MayPass(server(2, q))
    ensures Whole(RULES, server, q).result == Failed(server(2, q)) && Whole(RULES, server, q).sent == [q, q, q]
  {
    assert RunFrom(RULES, server, q, 2, 3) == Run(Failed(server(2, q)), [q], 0, {});
    var rest := RunFrom(RULES, server, q, 1, 3);
    assert rest.sent == [q, q] && rest.result == Failed(server(2, q));
  }

  lemma OtherErrorIsReported(server: Server, q: Request)
    requires server(0, q) in {Crash, Status(false), BadRequest(false, false)}
    ensures Whole(RULES, server, q) == Run(Failed(server(0, q)), [q], 0, {})
  {
  }

  // A refused temperature is left out of the next request, and a refused name of the limit replaced by
  // the other, without a wait.
  lemma RefusedIsMended(server: Server, q: Request, saysCompletion: bool, text: string)
    requires q.temperature && server(0, q) == BadRequest(true, saysCompletion)
    requires server(1, q.(temperature := false)) == Answer(text)
    ensures Whole(RULES, server, q) == Run(Ok(text), [q, q.(temperature := false)], 0, {NoTemperature})
  {
    assert RunFrom(RULES, server, q.(temperature := false), 1, 3) == Run(Ok(text), [q.(temperature := false)], 0, {});
  }

  lemma OtherNameIsTried(server: Server, q: Request, saysTemperature: bool, text: string)
    requires server(0, q) == BadRequest(saysTemperature, true) && !(q.temperature && saysTemperature)
    requires server(1, q.(completion := !q.completion)) == Answer(text)
    ensures Whole(RULES, server, q)
         == Run(Ok(text), [q, q.(completion := !q.completion)], 0, if q.completion then {Legacy} else {})
  {
    var p := q.(completion := !q.completion);
    assert RunFrom(RULES, server, p, 1, 3) == Run(Ok(text), [p], 0, {});
  }

  // A server that answers every request with a word on max_completion_tokens sees both names in
  // turn, six requests in all, and the prompt is exhausted.
  lemma PingPong(server: Server, q: Request, k: nat)
    requires k < 3 && forall i, p :: server(i, p) == BadRequest(false, true)
    ensures RunFrom(RULES, server, q, 3 + k, 3 + k + 1).result == Exhausted
    ensures |RunFrom(RULES, server, q, 3 + k, 3 + k + 1).sent| == 3 - k
    decreases 3 - k
  {
    if k < 2 { PingPong(server, q.(completion := !q.completion), k + 1); }
  }

  lemma PingPongExhausts(server: Server, q: Request)
    requires forall i, p :: server(i, p) == BadRequest(false, true)
    ensures Whole(RULES, server, q).result == Exhausted && |Whole(RULES, server, q).sent| == MOST
  {
    var p := q.(completion := !q.completion);
    PingPong(server, p, 0);
    assert |RunFrom(RULES, server, q, 2, 3).sent| == 4;
    assert |RunFrom(RULES, server, p, 1, 3).sent| == 5;
  }

  // ---- prompts, and what is learned from refusals ----

  // The models known to refuse a temperature, and to want max_tokens.
  datatype Known = Known(noTemperature: set<string>, legacy: set<string>)

  // What a caller asks for, and the server that answers.
  datatype Call = Call(server: Server, model: string, temperature: bool)

  function Composed(k: Known, c: Call): Request {
    Request(c.temperature && c.model !in k.noTemperature, c.model !in k.legacy)
  }

  function RunOf(k: Known, c: Call): Run<Request, Reply, Note> { Whole(RULES, c.server, Composed(k, c)) }

  function With(k: Known, model: string, notes: set<Note>): Known {
    Known(if NoTemperature in notes then k.noTemperature + {model} else k.noTemperature,
          if Legacy in notes then k.legacy + {model} else k.legacy)
  }

  function LearnedFromAll(k: Known, calls: seq<Call>): Known {
    if calls == [] then k
    else
      var early, c := LearnedFromAll(k, calls[..|calls|-1]), calls[|calls|-1];
      With(early, c.model, RunOf(early, c).notes)
  }

  // The run of the i-th of several calls.
  function RunAt(k: Known, calls: seq<Call>, i: nat): Run<Request, Reply, Note>
    requires i < |calls|
  {
    RunOf(LearnedFromAll(k, calls[..i]), calls[i])
  }

  lemma {:induction false} KnownStays(k: Known, calls: seq<Call>, i: nat)
    requires i < |calls|
    ensures var notes, late := RunAt(k, calls, i).notes, LearnedFromAll(k, calls);
      && (NoTemperature in notes ==> calls[i].model in late.noTemperature)
      && (Legacy in notes ==> calls[i].model in late.legacy)
    decreases |calls|
  {
    if i < |calls| - 1 {
      assert calls[..|calls|-1][..i] == calls[..i];
      KnownStays(k, calls[..|calls|-1], i);
    }
  }

  // A temperature that is not sent cannot be refused.
  lemma {:induction false} NotSentNotRefused(server: Server, q: Request, attempt: nat, attempts: nat)
    requires attempt <= attempts <= MOST
    ensures NoTemperature in RunFrom(RULES, server, q, attempt, attempts).notes ==> q.temperature
    decreases MOST - attempt
  {
    var n, r := attempt + 1, server(attempt, q);
    if attempt < attempts && GoesOn(RULES, q, r, n, attempts) {
      NotSentNotRefused(server, Cleaned(q, r), n, More(RULES, q, r, n, attempts));
    }
  }

  // Over any calls: a model that refused a temperature once is sent none again, and one that wanted
  // the old name of the limit is sent that first.
  lemma NoSecondRefusal(k: Known, calls: seq<Call>, i: nat, j: nat)
    requires i < j < |calls| && calls[i].model == calls[j].model
    ensures var first, second := RunAt(k, calls, i), RunAt(k, calls, j);
      && |second.sent| > 0
      && (NoTemperature in first.notes ==> !second.sent[0].temperature && NoTemperature !in second.notes)
      && (Legacy in first.notes ==> !second.sent[0].completion)
  {
    assert calls[..j][..i] == calls[..i];
    KnownStays(k, calls[..j], i);
    var c, q := calls[j], Composed(LearnedFromAll(k, calls[..j]), calls[j]);
    NotSentNotRefused(c.server, q, 0, 3);
    FirstSent(RULES, c.server, q, 0, 3);
  }

  // Before any refusal a temperature is sent when asked for, and the limit by its new name.
  lemma AskedIsSent(k: Known, c: Call)
    ensures Composed(k, c).temperature <==> c.temperature && c.model !in k.noTemperature
    ensures Composed(k, c).completion <==> c.model !in k.legacy
  {
  }

  class Client {
    var noTemperature: set<string>    // models known to refuse the parameter
    var legacy: set<string>           // models known to want max_tokens

    constructor ()
      ensures Knows() == Known({}, {})
    {
      noTemperature, legacy := {}, {};
    }

    ghost function Knows(): Known
      reads this
    {
      Known(noTemperature, legacy)
    }

    // Against any server: at most six requests and two minutes of waiting.
    method Prompt(c: Call) returns (result: Result<Reply>, ghost run: Run<Request, Reply, Note>)
      modifies this
      ensures run == RunOf(old(Knows()), c) && result == run.result
      ensures 1 <= |run.sent| <= MOST && run.waits <= 2 * WAIT
      ensures Knows() == With(old(Knows()), c.model, run.notes)
    {
      var q := Request(c.temperature && c.model !in noTemperature, c.model !in legacy);
      run := Whole(RULES, c.server, q);
      RunBounds(RULES, c.server, q, 0, 3);
      result := Send(c.server, c.model, q);
    }

    // Drop or rename the parameter that the server names.
    method Mend(model: string, q0: Request, reply: Reply) returns (q: Request, dropped: bool)
      requires reply.BadRequest?
      modifies this
      ensures q == Cleaned(q0, reply) && dropped == Drops(q0, reply)
      ensures Knows() == With(old(Knows()), model, Notes(q0, reply))
    {
      q, dropped := q0, true;
      if reply.saysTemperature && q.temperature {
        noTemperature := noTemperature + {model};
        q := q.(temperature := false);
      } else if q.completion && reply.saysCompletion {
        legacy := legacy + {model};
        q := q.(completion := false);
      } else if !q.completion && reply.saysCompletion {
        q := q.(completion := true);
      } else {
        dropped := false;
      }
    }

    // One request, and what is left of the prompt after it.
    method SendOnce(server: Server, model: string, q0: Request, attempt: nat, attempts0: nat,
                    ghost run: Run<Request, Reply, Note>, ghost seen: set<Note>)
      returns (result: Option<Result<Reply>>, q: Request, attempts: nat, ghost noted: set<Note>)
      requires attempt < attempts0 <= MOST && Left(run, seen, RunFrom(RULES, server, q0, attempt, attempts0))
      modifies this
      ensures Knows() == With(old(Knows()), model, noted)
      ensures result.Some? ==> result.value == run.result && run.notes == seen + noted
      ensures result.None? ==> attempt + 1 <= attempts <= MOST
      ensures result.None? ==> Left(run, seen + noted, RunFrom(RULES, server, q, attempt + 1, attempts))
    {
      result, q, attempts, noted := None, q0, attempts0, {};
      var reply := server(attempt, q);
      NextLeft(RULES, server, q, attempt, attempts, run, seen);
      if reply.Answer? { return Some(Ok(reply.text)), q, attempts, noted; }
      if reply.BadRequest? {
        var dropped;
        noted := Notes(q, reply);
        q, dropped := Mend(model, q, reply);
        if !dropped { return Some(Failed(reply)), q, attempts, noted; }
        if attempt + 1 == attempts && attempts < MOST { attempts := attempts + 1; }
      } else if !(Transient(reply) && attempt + 1 < attempts) {
        result := Some(Failed(reply));
      }
    }

    method Send(server: Server, model: string, q0: Request) returns (result: Result<Reply>)
      modifies this
      ensures var run := Whole(RULES, server, q0);
        result == run.result && Knows() == With(old(Knows()), model, run.notes)
    {
      var q, attempt, attempts := q0, 0, 3;
      ghost var run, seen: set<Note> := Whole(RULES, server, q0), {};
      while attempt < attempts
        invariant attempt <= attempts <= MOST
        invariant Left(run, seen, RunFrom(RULES, server, q, attempt, attempts))
        invariant Knows() == With(old(Knows()), model, seen)
        decreases MOST - attempt
      {
        var ended;
        ghost var noted;
        ended, q, attempts, noted := SendOnce(server, model, q, attempt, attempts, run, seen);
        seen := seen + noted;
        if ended.Some? { return ended.value; }
        attempt := attempt + 1;
      }
      return Exhausted;
    }
  }
}
