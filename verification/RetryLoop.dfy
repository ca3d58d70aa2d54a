// The loop that both API clients run around one prompt: a request is sent again after a passing
// failure, or mended when the server refuses a parameter, which may grant one attempt more.

module RetryLoop {
  import opened Common

  const WAIT := 60
  const MOST := 6

  datatype Result<R> = Ok(text: string) | Failed(why: R) | Exhausted

  // What a client makes of a reply: the text it answers, whether a parameter of the request is
  // refused, the request without it, whether the failure may pass, and what is noted of the model.
  datatype Rules<!Q, !R, N> = Rules(
    text: R -> Option<string>,
    drops: (Q, R) -> bool,
    cleaned: (Q, R) -> Q,
    transient: R -> bool,
    notes: (Q, R) -> set<N>)

  datatype Run<Q, R, N> = Run(result: Result<R>, sent: seq<Q>, waits: nat, notes: set<N>)

  function Granted(attempt: nat, attempts: nat): nat {
    if attempt == attempts && attempts < MOST then attempts + 1 else attempts
  }

  // What is left of a prompt once `attempt` of `attempts` requests have been sent.
  function RunFrom<Q, R, N>(
      e: Rules<Q, R, N>, server: (nat, Q) -> R, q: Q, attempt: nat, attempts: nat): Run<Q, R, N>
    requires attempt <= attempts <= MOST
    decreases MOST - attempt
  {
    if attempt == attempts then Run(Exhausted, [], 0, {})
    else
      var n, r := attempt + 1, server(attempt, q);
      if e.text(r).Some? then Run(Ok(e.text(r).value), [q], 0, {})
      else if e.drops(q, r) then
        var rest := RunFrom(e, server, e.cleaned(q, r), n, Granted(n, attempts));
        Run(rest.result, [q] + rest.sent, rest.waits, e.notes(q, r) + rest.notes)
      else if e.transient(r) && n < attempts then
        var rest := RunFrom(e, server, q, n, attempts);
        rest.(sent := [q] + rest.sent, waits := rest.waits + WAIT)
      else Run(Failed(r), [q], 0, {})
  }

  // The run of a whole prompt.
  function Whole<Q, R, N>(e: Rules<Q, R, N>, server: (nat, Q) -> R, q: Q): Run<Q, R, N> {
    RunFrom(e, server, q, 0, 3)
  }

  function Mended<Q, R, N>(e: Rules<Q, R, N>, q: Q, r: R): Q { if e.drops(q, r) then e.cleaned(q, r) else q }

  function More<Q, R, N>(e: Rules<Q, R, N>, q: Q, r: R, n: nat, attempts: nat): nat {
    if e.drops(q, r) then Granted(n, attempts) else attempts
  }

  // Another request may follow this reply, to the n-th request.
  predicate GoesOn<Q, R, N>(e: Rules<Q, R, N>, q: Q, r: R, n: nat, attempts: nat) {
    e.text(r).None? && (e.drops(q, r) || (e.transient(r) && n < attempts))
  }

  lemma FirstSent<Q, R, N>(e: Rules<Q, R, N>, server: (nat, Q) -> R, q: Q, attempt: nat, attempts: nat)
    requires attempt < attempts <= MOST
    ensures var run := RunFrom(e, server, q, attempt, attempts); run.sent != [] && run.sent[0] == q
  {
  }

  // At most six requests, whatever the server says, and no waiting beyond the first attempts.
  lemma {:induction false} RunBounds<Q, R, N>(
      e: Rules<Q, R, N>, server: (nat, Q) -> R, q: Q, attempt: nat, attempts: nat)
    requires attempt < attempts <= MOST
    ensures var run := RunFrom(e, server, q, attempt, attempts);
      1 <= |run.sent| <= MOST - attempt && run.waits <= WAIT * (attempts - attempt - 1)
    decreases MOST - attempt
  {
    var n, r := attempt + 1, server(attempt, q);
    var more := More(e, q, r, n, attempts);
    if GoesOn(e, q, r, n, attempts) && n < more { RunBounds(e, server, Mended(e, q, r), n, more); }
  }

  // Each request is the one before it, or that mended as the reply asks, which is noted.
  predicate StepFits<Q(==), R, N>(
      e: Rules<Q, R, N>, server: (nat, Q) -> R, run: Run<Q, R, N>, attempt: nat, k: nat)
    requires k < |run.sent|
  {
    var q := run.sent[k];
    var r := server(attempt + k, q);
    && (e.text(r).None? && e.drops(q, r) ==> e.notes(q, r) <= run.notes)
    && (k + 1 < |run.sent| ==> (e.drops(q, r) || e.transient(r)) && run.sent[k+1] == Mended(e, q, r))
  }

  lemma FitsOneLater<Q, R, N>(
      e: Rules<Q, R, N>, server: (nat, Q) -> R, q: Q, run: Run<Q, R, N>, rest: Run<Q, R, N>, attempt: nat, k: nat)
    requires run.sent == [q] + rest.sent && rest.notes <= run.notes
    requires k < |rest.sent| && StepFits(e, server, rest, attempt + 1, k)
    ensures StepFits(e, server, run, attempt, k + 1)
  {
    assert run.sent[k+1] == rest.sent[k];
    if k + 1 < |rest.sent| { assert run.sent[k+2] == rest.sent[k+1]; }
  }

  lemma {:induction false} RunSteps<Q, R, N>(
      e: Rules<Q, R, N>, server: (nat, Q) -> R, q: Q, attempt: nat, attempts: nat, k: nat)
    requires attempt < attempts <= MOST && k < |RunFrom(e, server, q, attempt, attempts).sent|
    ensures StepFits(e, server, RunFrom(e, server, q, attempt, attempts), attempt, k)
    decreases MOST - attempt
  {
    var n, r := attempt + 1, server(attempt, q);
    var more := More(e, q, r, n, attempts);
    if GoesOn(e, q, r, n, attempts) && n < more {
      var run, rest := RunFrom(e, server, q, attempt, attempts), RunFrom(e, server, Mended(e, q, r), n, more);
      FirstSent(e, server, Mended(e, q, r), n, more);
      if k > 0 {
        RunSteps(e, server, Mended(e, q, r), n, more, k - 1);
        FitsOneLater(e, server, q, run, rest, attempt, k - 1);
      }
    }
  }

  // What is reported is the reply to the last request; a failure that may pass is reported only once
  // no request is left.
  predicate EndsWell<Q, R(==), N>(
      e: Rules<Q, R, N>, server: (nat, Q) -> R, run: Run<Q, R, N>, attempt: nat, attempts: nat)
  {
    && run.sent != []
    && var last := run.sent[|run.sent|-1];
       var reply := server(attempt + |run.sent| - 1, last);
       match run.result
       case Ok(text) => e.text(reply) == Some(text)
       case Failed(why) => reply == why && e.text(why).None? && !e.drops(last, why)
           && (e.transient(why) ==> attempt + |run.sent| >= attempts)
       case Exhausted => e.text(reply).None? && e.drops(last, reply) && attempt + |run.sent| == MOST
  }

  lemma EndsOneLater<Q, R, N>(
      e: Rules<Q, R, N>, server: (nat, Q) -> R, q: Q, run: Run<Q, R, N>, rest: Run<Q, R, N>, attempt: nat,
      attempts: nat, more: nat)
    requires EndsWell(e, server, rest, attempt + 1, more) && attempts <= more
    requires run.sent == [q] + rest.sent && run.result == rest.result
    ensures EndsWell(e, server, run, attempt, attempts)
  {
    assert run.sent[|run.sent|-1] == rest.sent[|rest.sent|-1];
  }

  lemma {:induction false} RunEnds<Q, R, N>(
      e: Rules<Q, R, N>, server: (nat, Q) -> R, q: Q, attempt: nat, attempts: nat)
    requires attempt < attempts <= MOST
    ensures EndsWell(e, server, RunFrom(e, server, q, attempt, attempts), attempt, attempts)
    decreases MOST - attempt
  {
    var n, r := attempt + 1, server(attempt, q);
    var more := More(e, q, r, n, attempts);
    if GoesOn(e, q, r, n, attempts) && n < more {
      var run, rest := RunFrom(e, server, q, attempt, attempts), RunFrom(e, server, Mended(e, q, r), n, more);
      RunEnds(e, server, Mended(e, q, r), n, more);
      EndsOneLater(e, server, q, run, rest, attempt, attempts, more);
    }
  }

  // What a run comes to is what was noted so far and what is left of it.
  ghost predicate Left<Q(!new), R(!new), N(!new)>(run: Run<Q, R, N>, seen: set<N>, rest: Run<Q, R, N>) {
    run.result == rest.result && run.notes == seen + rest.notes
  }

  lemma NextLeft<Q(!new), R(!new), N(!new)>(
      e: Rules<Q, R, N>, server: (nat, Q) -> R, q: Q, attempt: nat, attempts: nat, run: Run<Q, R, N>, seen: set<N>)
    requires attempt < attempts <= MOST && Left(run, seen, RunFrom(e, server, q, attempt, attempts))
    ensures var n, r := attempt + 1, server(attempt, q);
      if e.text(r).Some? then run.result == Ok(e.text(r).value) && run.notes == seen
      else if e.drops(q, r) then
        Left(run, seen + e.notes(q, r), RunFrom(e, server, e.cleaned(q, r), n, Granted(n, attempts)))
      else if e.transient(r) && n < attempts then Left(run, seen, RunFrom(e, server, q, n, attempts))
      else run.result == Failed(r) && run.notes == seen
  {
  }

  // The loop runs out exactly when six requests were sent and even the sixth had a parameter refused.
  lemma ExhaustedIff<Q, R, N>(e: Rules<Q, R, N>, server: (nat, Q) -> R, q: Q)
    ensures var run := Whole(e, server, q);
      && run.sent != []
      && var last := run.sent[|run.sent|-1];
         run.result == Exhausted
         <==> |run.sent| == MOST && e.text(server(MOST - 1, last)).None? && e.drops(last, server(MOST - 1, last))
  {
    RunEnds(e, server, q, 0, 3);
  }

  // A reply that is waited out: a failure that may pass.
  predicate Passes<Q, R, N>(e: Rules<Q, R, N>, q: Q, r: R) { e.text(r).None? && !e.drops(q, r) && e.transient(r) }

  // Passing failures, as long as an attempt is left after them, do no harm.
  lemma {:induction false} PassingThenAnswer<Q, R, N>(
      e: Rules<Q, R, N>, server: (nat, Q) -> R, q: Q, attempt: nat, attempts: nat, n: nat, text: string)
    requires attempt + n < attempts <= MOST && e.text(server(attempt + n, q)) == Some(text)
    requires forall k | attempt <= k < attempt + n :: Passes(e, q, server(k, q))
    ensures RunFrom(e, server, q, attempt, attempts) == Run(Ok(text), seq(n + 1, _ => q), 60 * n, {})
    decreases n
  {
    if n > 0 {
      assert Passes(e, q, server(attempt, q));
      PassingThenAnswer(e, server, q, attempt + 1, attempts, n - 1, text);
      assert [q] + seq(n, _ => q) == seq(n + 1, _ => q);
    } else {
      assert [q] == seq(1, _ => q);
    }
  }
}
