// One prompt to the Anthropic SDK: retries after transient errors, and after dropping a parameter
// that the model refuses.

module SdkRetry {
  import opened Common
  import opened RetryLoop

  datatype Request = Request(temperature: bool, thinking: bool)

  // What the server may do with a request; the texts it sends are kept as what the code reads in them.
  datatype Reply =
    | Answer(text: string)
    | Refused(code: int, saysTemperature: bool, saysThinking: bool, saysUnsupported: bool, transient: bool)
    | NoConnection
    | Crash                    // any other exception

  // What is noted of a model: that it refuses a temperature, or thinking.
  datatype Note = NoTemperature | NoThinking

  predicate DropsTemperature(q: Request, r: Reply) {
    r.Refused? && q.temperature && r.saysTemperature && r.code == 400
  }

  predicate DropsThinking(q: Request, r: Reply) {
    r.Refused? && !DropsTemperature(q, r) && q.thinking && r.saysThinking && (r.saysUnsupported || r.code == 400)
  }

  predicate Drops(q: Request, r: Reply) { DropsTemperature(q, r) || DropsThinking(q, r) }

  function Cleaned(q: Request, r: Reply): Request {
    if DropsTemperature(q, r) then q.(temperature := false)
    else if DropsThinking(q, r) then q.(thinking := false)
    else q
  }

  predicate Transient(r: Reply) { r.NoConnection? || (r.Refused? && r.transient) }

  function TextOf(r: Reply): Option<string> { match r case Answer(text) => Some(text) case _ => None }

  function Notes(q: Request, r: Reply): set<Note> {
    if DropsTemperature(q, r) then {NoTemperature} else if DropsThinking(q, r) then {NoThinking} else {}
  }

  const RULES: Rules<Request, Reply, Note> := Rules(TextOf, Drops, Cleaned, Transient, Notes)

  function Params(q: Request): nat { (if q.temperature then 1 else 0) + (if q.thinking then 1 else 0) }

  type Server = (nat, Request) -> Reply

  // Granting only on a dropped parameter keeps the requests within three and one for each parameter
  // there was; the loop never ends without an answer or an error.
  lemma {:induction false} RunIsShort(server: Server, q: Request, attempt: nat, attempts: nat)
    requires attempt < attempts && attempts + Params(q) <= 5
    ensures var run := RunFrom(RULES, server, q, attempt, attempts);
      run.result != Exhausted && |run.sent| <= attempts - attempt + Params(q)
    decreases 6 - attempt
  {
    var n, r := attempt + 1, server(attempt, q);
    if GoesOn(RULES, q, r, n, attempts) {
      RunIsShort(server, Cleaned(q, r), n, More(RULES, q, r, n, attempts));
    }
  }

  // Only a parameter that is sent can be refused.
  lemma {:induction false} NotSentNotRefused(server: Server, q: Request, attempt: nat, attempts: nat)
    requires attempt <= attempts <= MOST
    ensures var run := RunFrom(RULES, server, q, attempt, attempts);
      (NoTemperature in run.notes ==> q.temperature) && (NoThinking in run.notes ==> q.thinking)
    decreases MOST - attempt
  {
    var n, r := attempt + 1, server(attempt, q);
    if attempt < attempts && GoesOn(RULES, q, r, n, attempts) {
      NotSentNotRefused(server, Cleaned(q, r), n, More(RULES, q, r, n, attempts));
    }
  }

  // ---- prompts, and what is learned from refusals ----

  // The models known to refuse a temperature, and thinking.
  datatype Known = Known(noTemperature: set<string>, noThinking: set<string>)

  // What a caller asks for, and the server that answers.
  datatype Call = Call(server: Server, model: string, temperature: bool, thinking: bool)

  // Thinking leaves no room for a temperature: a request never carries both.
  function Composed(k: Known, c: Call, refusesByName: string -> bool): (q: Request)
    ensures Params(q) <= 1
  {
    var thinks := c.thinking && c.model !in k.noThinking;
    Request(c.temperature && !thinks && c.model !in k.noTemperature && !refusesByName(c.model), thinks)
  }

  function RunOf(k: Known, c: Call, refusesByName: string -> bool): Run<Request, Reply, Note> {
    Whole(RULES, c.server, Composed(k, c, refusesByName))
  }

  // What is known after a call: the refusals met, and a temperature left out because of the name.
  function Learned(k: Known, c: Call, refusesByName: string -> bool): Known {
    var run := RunOf(k, c, refusesByName);
    var named := c.temperature && !(c.thinking && c.model !in k.noThinking) && refusesByName(c.model);
    Known(if NoTemperature in run.notes || named then k.noTemperature + {c.model} else k.noTemperature,
          if NoThinking in run.notes then k.noThinking + {c.model} else k.noThinking)
  }

  // What is asked for is sent, unless the model is known to refuse it: thinking, or else a temperature.
  lemma AskedIsSent(k: Known, c: Call, refusesByName: string -> bool)
    ensures var q := Composed(k, c, refusesByName);
      && (q.thinking <==> c.thinking && c.model !in k.noThinking)
      && (!q.thinking ==> (q.temperature <==> c.temperature && c.model !in k.noTemperature && !refusesByName(c.model)))
      && (q.thinking ==> !q.temperature)
  {
  }

  // One prompt against any server: at most four requests, two minutes of waiting, and never exhausted.
  lemma OnePrompt(k: Known, c: Call, refusesByName: string -> bool)
    ensures var run := RunOf(k, c, refusesByName);
      && 1 <= |run.sent| <= 4 && run.waits <= 2 * WAIT && run.result != Exhausted
      && run.sent[0] == Composed(k, c, refusesByName)
      && (NoTemperature in run.notes ==> run.sent[0].temperature)
      && (NoThinking in run.notes ==> run.sent[0].thinking)
  {
    var q := Composed(k, c, refusesByName);
    RunBounds(RULES, c.server, q, 0, 3);
    RunIsShort(c.server, q, 0, 3);
    FirstSent(RULES, c.server, q, 0, 3);
    NotSentNotRefused(c.server, q, 0, 3);
  }

  function LearnedFromAll(k: Known, calls: seq<Call>, refusesByName: string -> bool): Known {
    if calls == [] then k
    else Learned(LearnedFromAll(k, calls[..|calls|-1], refusesByName), calls[|calls|-1], refusesByName)
  }

  // The run of the i-th of several calls.
  function RunAt(k: Known, calls: seq<Call>, refusesByName: string -> bool, i: nat): Run<Request, Reply, Note>
    requires i < |calls|
  {
    RunOf(LearnedFromAll(k, calls[..i], refusesByName), calls[i], refusesByName)
  }

  lemma {:induction false} KnownStays(
      k: Known, calls: seq<Call>, refusesByName: string -> bool, i: nat)
    requires i <= |calls|
    ensures var early, late := LearnedFromAll(k, calls[..i], refusesByName), LearnedFromAll(k, calls, refusesByName);
      early.noTemperature <= late.noTemperature && early.noThinking <= late.noThinking
    decreases |calls|
  {
    if i == |calls| {
      assert calls[..i] == calls;
    } else {
      assert calls[..|calls|-1][..i] == calls[..i];
      KnownStays(k, calls[..|calls|-1], refusesByName, i);
    }
  }

  lemma LearnedNext(
      k: Known, calls: seq<Call>, refusesByName: string -> bool, i: nat)
    requires i < |calls|
    ensures LearnedFromAll(k, calls[..i+1], refusesByName)
         == Learned(LearnedFromAll(k, calls[..i], refusesByName), calls[i], refusesByName)
  {
    assert calls[..i+1][..i] == calls[..i];
  }

  // Over any calls, no model refuses a temperature twice, nor thinking: what it refused once it is
  // not sent again.
  lemma NoSecondRefusal(
      k: Known, calls: seq<Call>, refusesByName: string -> bool, i: nat, j: nat)
    requires i < j < |calls| && calls[i].model == calls[j].model
    ensures var first, second := RunAt(k, calls, refusesByName, i), RunAt(k, calls, refusesByName, j);
      && (NoTemperature in first.notes ==> !second.sent[0].temperature && NoTemperature !in second.notes)
      && (NoThinking in first.notes ==> !second.sent[0].thinking && NoThinking !in second.notes)
  {
    LearnedNext(k, calls, refusesByName, i);
    assert calls[..j][..i+1] == calls[..i+1];
    KnownStays(k, calls[..j], refusesByName, i + 1);
    OnePrompt(LearnedFromAll(k, calls[..j], refusesByName), calls[j], refusesByName);
  }

  class Client {
    var noTemperature: set<string>    // models known to refuse the parameter
    var noThinking: set<string>

    constructor ()
      ensures Knows() == Known({}, {})
    {
      noTemperature, noThinking := {}, {};
    }

    ghost function Knows(): Known
      reads this
    {
      Known(noTemperature, noThinking)
    }

    method Compose(c: Call, refusesByName: string -> bool) returns (q: Request)
      modifies this`noTemperature
      ensures q == Composed(old(Knows()), c, refusesByName)
      ensures noTemperature == old(noTemperature)
        + if c.temperature && !q.thinking && refusesByName(c.model) then {c.model} else {}
    {
      var t := c.temperature;
      q := Request(false, false);
      if c.thinking && c.model !in noThinking {
        q := q.(thinking := true);
        t := false;
      }
      if t {
        if c.model !in noTemperature && !refusesByName(c.model) {
          q := q.(temperature := true);
        } else if c.model !in noTemperature {
          noTemperature := noTemperature + {c.model};
        }
      }
    }

    // One prompt: what comes of it, and what is known after it.
    method Prompt(c: Call, refusesByName: string -> bool) returns (result: Result<Reply>)
      modifies this
      ensures result == RunOf(old(Knows()), c, refusesByName).result != Exhausted
      ensures Knows() == Learned(old(Knows()), c, refusesByName)
    {
      ghost var k := Knows();
      var q := Compose(c, refusesByName);
      result := Send(c.server, c.model, q);
      OnePrompt(k, c, refusesByName);
    }

    // Drop the parameter that the server refuses.
    method Mend(model: string, q0: Request, reply: Reply) returns (q: Request, dropped: bool)
      modifies this
      ensures q == Cleaned(q0, reply) && dropped == Drops(q0, reply)
      ensures Noted(model, old(noTemperature), old(noThinking), Notes(q0, reply))
    {
      q, dropped := q0, true;
      if DropsTemperature(q, reply) {
        noTemperature := noTemperature + {model};
        q := q.(temperature := false);
      } else if DropsThinking(q, reply) {
        noThinking := noThinking + {model};
        q := q.(thinking := false);
      } else {
        dropped := false;
      }
    }

    ghost predicate Noted(model: string, temperatures: set<string>, thinkings: set<string>, notes: set<Note>)
      reads this
    {
      && noTemperature == (if NoTemperature in notes then temperatures + {model} else temperatures)
      && noThinking == (if NoThinking in notes then thinkings + {model} else thinkings)
    }

    // One request, and what is left of the prompt after it.
    method SendOnce(server: Server, model: string, q0: Request, attempt: nat, attempts0: nat,
                    ghost run: Run<Request, Reply, Note>, ghost seen: set<Note>)
      returns (result: Option<Result<Reply>>, q: Request, attempts: nat, ghost noted: set<Note>)
      requires attempt < attempts0 && attempts0 + Params(q0) <= 4
      requires Left(run, seen, RunFrom(RULES, server, q0, attempt, attempts0))
      modifies this
      ensures Noted(model, old(noTemperature), old(noThinking), noted)
      ensures result.Some? ==> result.value == run.result && run.notes == seen + noted
      ensures result.None? ==> attempt + 1 <= attempts && attempts + Params(q) <= 4
      ensures result.None? ==> Left(run, seen + noted, RunFrom(RULES, server, q, attempt + 1, attempts))
    {
      result, q, attempts, noted := None, q0, attempts0, {};
      var reply := server(attempt, q);
      NextLeft(RULES, server, q, attempt, attempts, run, seen);
      if reply.Answer? { return Some(Ok(reply.text)), q, attempts, noted; }
      var dropped;
      noted := Notes(q, reply);
      q, dropped := Mend(model, q, reply);
      if dropped {
        if attempt + 1 == attempts && attempts < MOST { attempts := attempts + 1; }
      } else if !(Transient(reply) && attempt + 1 < attempts) {
        result := Some(Failed(reply));
      }
    }

    method Send(server: Server, model: string, q0: Request) returns (result: Result<Reply>)
      requires Params(q0) <= 1
      modifies this
      ensures var run := Whole(RULES, server, q0);
        result == run.result && Noted(model, old(noTemperature), old(noThinking), run.notes)
    {
      var q, attempt, attempts := q0, 0, 3;
      ghost var run, seen: set<Note> := Whole(RULES, server, q0), {};
      while attempt < attempts
        invariant attempt <= attempts && attempts + Params(q) <= 4
        invariant Left(run, seen, RunFrom(RULES, server, q, attempt, attempts))
        invariant Noted(model, old(noTemperature), old(noThinking), seen)
        decreases MOST - attempt
      {
        var ended;
        ghost var noted;
        ended, q, attempts, noted := SendOnce(server, model, q, attempt, attempts, run, seen);
        seen := seen + noted;
        if ended.Some? { return ended.value; }
        attempt := attempt + 1;
      }
      return Exhausted;
    }
  }

  // The first results are those of their runs.
  ghost predicate Answered(k: Known, calls: seq<Call>, refusesByName: string -> bool, results: seq<Result<Reply>>) {
    |results| <= |calls|
    && forall i | 0 <= i < |results| :: results[i] == RunAt(k, calls, refusesByName, i).result
  }

  lemma AnsweredNext(
      k: Known, calls: seq<Call>, refusesByName: string -> bool, results: seq<Result<Reply>>, next: Result<Reply>)
    requires Answered(k, calls, refusesByName, results) && |results| < |calls|
    requires next == RunAt(k, calls, refusesByName, |results|).result
    ensures Answered(k, calls, refusesByName, results + [next])
  {
  }

  // Prompts one after another: each runs as the servers and the refusals met before have it.
  method PromptAll(client: Client, calls: seq<Call>, refusesByName: string -> bool)
    returns (results: seq<Result<Reply>>)
    modifies client
    ensures client.Knows() == LearnedFromAll(old(client.Knows()), calls, refusesByName)
    ensures |results| == |calls| && Answered(old(client.Knows()), calls, refusesByName, results)
  {
    results := [];
    ghost var k := client.Knows();
    for i := 0 to |calls|
      invariant client.Knows() == LearnedFromAll(k, calls[..i], refusesByName)
      invariant |results| == i && Answered(k, calls, refusesByName, results)
    {
      LearnedNext(k, calls, refusesByName, i);
      var result := client.Prompt(calls[i], refusesByName);
      AnsweredNext(k, calls, refusesByName, results, result);
      results := results + [result];
    }
    assert calls[..|calls|] == calls;
  }

  // A failure that may pass, and refuses no parameter of the request.
  predicate MayPass(q: Request, r: Reply) {
    || r == NoConnection
    || (r.Refused? && r.transient && !(q.temperature && r.saysTemperature && r.code == 400)
        && !(q.thinking && r.saysThinking && (r.saysUnsupported || r.code == 400)))
  }

  // Up to two such failures before an answer cost a minute each, and nothing else.
  lemma FailuresPass(server: Server, q: Request, n: nat, text: string)
    requires n < 3 && server(n, q) == Answer(text) && forall k | 0 <= k < n :: MayPass(q, server(k, q))
    ensures Whole(RULES, server, q) == Run(Ok(text), seq(n + 1, _ => q), 60 * n, {})
  {
    forall k | 0 <= k < n ensures Passes(RULES, q, server(k, q)) { assert MayPass(q, server(k, q)); }
    PassingThenAnswer(RULES, server, q, 0, 3, n, text);
  }

  // A third is reported, and any other error at once.
  lemma ThirdFailureIsReported(server: Server, q: Request)
    requires MayPass(q, server(0, q)) && MayPass(q, server(1, q)) && MayPass(q, server(2, q))
    ensures Whole(RULES, server, q).result == Failed(server(2, q)) && Whole(RULES, server, q).sent == [q, q, q]
  {
    assert RunFrom(RULES, server, q, 2, 3) == Run(Failed(server(2, q)), [q], 0, {});
    var rest := RunFrom(RULES, server, q, 1, 3);
    assert rest.sent == [q, q] && rest.result == Failed(server(2, q));
  }

  lemma OtherErrorIsReported(server: Server, q: Request, r: Reply)
    requires server(0, q) == r && (r == Crash || (r.Refused? && !r.transient && !r.saysTemperature && !r.saysThinking))
    ensures Whole(RULES, server, q) == Run(Failed(r), [q], 0, {})
  {
  }

  // A refused temperature, or thinking, is left out of the next request, without a wait.
  lemma RefusedIsLeftOut(server: Server, q: Request, r: Reply, p: Request, text: string)
    requires server(0, q) == r && r.Refused? && server(1, p) == Answer(text)
    requires if q.temperature && r.saysTemperature && r.code == 400 then p == q.(temperature := false)
      else q.thinking && r.saysThinking && (r.saysUnsupported || r.code == 400) && p == q.(thinking := false)
    ensures Whole(RULES, server, q) == Run(
      Ok(text), [q, p], 0, if p.temperature == q.temperature then {NoThinking} else {NoTemperature})
  {
    assert RunFrom(RULES, server, p, 1, 3) == Run(Ok(text), [p], 0, {});
  }

  // The bound is met: a passing failure twice, then a refusal, then a failure.
  lemma FourAreSent(server: Server, q: Request)
    requires q == Request(true, false)
    requires forall k, p :: server(k, p) == if k < 2 then NoConnection else Refused(400, true, false, false, false)
    ensures |Whole(RULES, server, q).sent| == 4 && Whole(RULES, server, q).waits == 2 * WAIT
  {
    var cleaned := q.(temperature := false);
    assert RunFrom(RULES, server, cleaned, 3, 4).sent == [cleaned];
    assert RunFrom(RULES, server, q, 2, 3).sent == [q] + [cleaned];
    assert RunFrom(RULES, server, q, 1, 3).sent == [q] + ([q] + [cleaned]);
  }
}
