// The retry loops around one `claude` run: backoff on transient failures, one retry after a
// timeout, and a few rounds while the answer is still pending.  How the runs end and what each
// reading of the stop flag says come from an adversary.

module CliRetry {

  // How one run ends: a completed process (exit status zero or not, hard usage cap, transient
  // failure, answer still pending), a timeout, or the abort raised inside the runner.
  datatype RunEnd =
    | Completed(ok: bool, hardCap: bool, transient: bool, pending: bool)
    | TimeoutExpired
    | AbortedInRun

  datatype CallEnd = Result(run: RunEnd) | RaisedTimeout | RaisedAbort | RaisedFailure | RaisedPending

  // The n-th run, and the n-th reading of the flag.
  datatype World = World(run: nat -> RunEnd, flag: nat -> bool)

  const RL_MAX_RETRIES := 4
  const RL_BACKOFF: seq<nat> := [30, 60, 120, 240]
  const TIMEOUT_MAX_RETRIES := 1
  const PENDING_MAX_RETRIES := 3
  const PENDING_BACKOFF: seq<nat> := [5, 15, 30]

  function Min(a: int, b: int): int { if a < b then a else b }

  // The waits still to come after so many retries.
  function BackoffFrom(attempt: nat): nat
    requires attempt <= RL_MAX_RETRIES
    decreases RL_MAX_RETRIES - attempt
  {
    if attempt == RL_MAX_RETRIES then 0 else RL_BACKOFF[attempt] + BackoffFrom(attempt + 1)
  }

  function PendingFrom(pending: nat): nat
    requires pending <= PENDING_MAX_RETRIES
    decreases PENDING_MAX_RETRIES - pending
  {
    if pending == PENDING_MAX_RETRIES then 0 else PENDING_BACKOFF[pending] + PendingFrom(pending + 1)
  }

  predicate IsTransient(e: RunEnd) { e.Completed? && !e.ok && !e.hardCap && e.transient }

  // Among the runs from `first` on and before `last`, how many timed out, and how many failed transiently.
  function Timeouts(w: World, first: nat, last: nat): nat
    decreases last - first
  {
    if first >= last then 0 else (if w.run(first).TimeoutExpired? then 1 else 0) + Timeouts(w, first + 1, last)
  }

  function Transients(w: World, first: nat, last: nat): nat
    decreases last - first
  {
    if first >= last then 0 else (if IsTransient(w.run(first)) then 1 else 0) + Transients(w, first + 1, last)
  }

  // ---- what a backoff, a call and an agentic call come to ----

  // Sleeping for `wait` seconds in naps of at most five, reading the flag before each: whether the
  // flag was found set, the time slept, and the next reading.
  function Nap(w: World, wait: nat, flags: nat): (bool, nat, nat) {
    if wait == 0 then (false, 0, flags)
    else if w.flag(flags) then (true, 0, flags + 1)
    else
      var step := Min(5, wait);
      var rest := Nap(w, wait - step, flags + 1);
      (rest.0, rest.1 + step, rest.2)
  }

  // `run` and `flags` are the next run and the next reading.
  datatype Ended = Ended(end: CallEnd, run: nat, slept: nat, flags: nat)

  // What a run after `attempt` transient failures and `timeouts` timeouts comes to: the end, or another
  // run after a nap, t telling whether it timed out.
  datatype Move = Stop(c: Ended) | Go(flags: nat, t: nat, nap: nat)

  function AfterRun(w: World, run: nat, flags: nat, attempt: nat, timeouts: nat): (m: Move)
    requires attempt <= RL_MAX_RETRIES && timeouts <= TIMEOUT_MAX_RETRIES
    ensures m.Go? ==> m.t <= 1 && timeouts + m.t <= TIMEOUT_MAX_RETRIES && attempt + 1 - m.t <= RL_MAX_RETRIES
  {
    match w.run(run)
    case AbortedInRun => Stop(Ended(RaisedAbort, run + 1, 0, flags))
    case TimeoutExpired =>
      if w.flag(flags) || timeouts == TIMEOUT_MAX_RETRIES then Stop(Ended(RaisedTimeout, run + 1, 0, flags + 1))
      else Go(flags + 1, 1, 0)
    case Completed(ok, hardCap, transient, pending) =>
      if ok || hardCap || attempt == RL_MAX_RETRIES || !transient then
        Stop(Ended(Result(w.run(run)), run + 1, 0, flags))
      else
        var nap := Nap(w, RL_BACKOFF[attempt], flags);
        if nap.0 then Stop(Ended(RaisedAbort, run + 1, nap.1, nap.2)) else Go(nap.2, 0, nap.1)
  }

  function CallFrom(w: World, run: nat, flags: nat, attempt: nat, timeouts: nat): Ended
    requires attempt <= RL_MAX_RETRIES && timeouts <= TIMEOUT_MAX_RETRIES
    decreases RL_MAX_RETRIES - attempt + TIMEOUT_MAX_RETRIES - timeouts
  {
    var m := AfterRun(w, run, flags, attempt, timeouts);
    if m.Stop? then m.c
    else
      var rest := CallFrom(w, run + 1, m.flags, attempt + 1 - m.t, timeouts + m.t);
      rest.(slept := m.nap + rest.slept)
  }

  function Call(w: World, run: nat, flags: nat): Ended { CallFrom(w, run, flags, 0, 0) }

  datatype Answered = Answered(end: CallEnd, rounds: nat, run: nat, slept: nat)

  // An agentic call after `pending` answers that were still pending.
  function RoundsFrom(w: World, run: nat, flags: nat, pending: nat): Answered
    requires pending <= PENDING_MAX_RETRIES
    decreases PENDING_MAX_RETRIES - pending
  {
    var c := Call(w, run, flags);
    if !c.end.Result? then Answered(c.end, 1, c.run, c.slept)
    else if !(c.end.run.Completed? && c.end.run.ok) then Answered(RaisedFailure, 1, c.run, c.slept)
    else if !c.end.run.pending then Answered(c.end, 1, c.run, c.slept)
    else if pending == PENDING_MAX_RETRIES then Answered(RaisedPending, 1, c.run, c.slept)
    else
      var nap := Nap(w, PENDING_BACKOFF[pending], c.flags);
      if nap.0 then Answered(RaisedAbort, 1, c.run, c.slept + nap.1)
      else
        var rest := RoundsFrom(w, c.run, nap.2, pending + 1);
        rest.(rounds := 1 + rest.rounds, slept := c.slept + nap.1 + rest.slept)
  }

  // ---- the loops ----

  method Backoff(w: World, wait: nat, flags0: nat) returns (aborted: bool, slept: nat, flags: nat)
    ensures (aborted, slept, flags) == Nap(w, wait, flags0)
  {
    slept, flags := 0, flags0;
    while slept < wait
      invariant slept <= wait
      invariant var rest := Nap(w, wait - slept, flags); Nap(w, wait, flags0) == (rest.0, slept + rest.1, rest.2)
    {
      var stop := w.flag(flags);
      flags := flags + 1;
      if stop { return true, slept, flags; }
      slept := slept + Min(5, wait - slept);
    }
    aborted := false;
  }

  method RunWithRetry(w: World, run0: nat, flags0: nat) returns (end: CallEnd, run: nat, slept: nat, flags: nat)
    ensures Ended(end, run, slept, flags) == Call(w, run0, flags0)
  {
    var attempt: nat, timeoutAttempt: nat := 0, 0;
    run, slept, flags := run0, 0, flags0;
    ghost var whole := Start(w, run0, flags0);
    while true
      invariant Left(w, whole, run, slept, flags, attempt, timeoutAttempt)
      decreases RL_MAX_RETRIES - attempt + TIMEOUT_MAX_RETRIES - timeoutAttempt
    {
      var move := RunOn(w, run, flags, attempt, timeoutAttempt, whole, slept);
      if move.Stop? { return move.c.end, move.c.run, slept + move.c.slept, move.c.flags; }
      run, flags, slept := run + 1, move.flags, slept + move.nap;
      attempt, timeoutAttempt := attempt + 1 - move.t, timeoutAttempt + move.t;
    }
  }

  // A run, and what is left of the call after it.
  method RunOn(w: World, run: nat, flags: nat, attempt: nat, timeoutAttempt: nat, ghost whole: Ended, ghost slept: nat)
    returns (move: Move)
    requires Left(w, whole, run, slept, flags, attempt, timeoutAttempt)
    ensures move.Stop? ==> IsRest(whole, slept, move.c)
    ensures move.Go? ==>
      && move.t <= 1
      && Left(w, whole, run + 1, slept + move.nap, move.flags, attempt + 1 - move.t, timeoutAttempt + move.t)
  {
    move := RunOnce(w, run, flags, attempt, timeoutAttempt);
    RestAfter(w, run, flags, attempt, timeoutAttempt, move, whole, slept);
  }

  lemma Start(w: World, run: nat, flags: nat) returns (whole: Ended)
    ensures whole == Call(w, run, flags) && Left(w, whole, run, 0, flags, 0, 0)
  {
    whole := Call(w, run, flags);
  }

  // What is left of a call after so many retries.
  ghost predicate Left(w: World, whole: Ended, run: nat, slept: nat, flags: nat, attempt: int, timeouts: int) {
    && 0 <= attempt <= RL_MAX_RETRIES && 0 <= timeouts <= TIMEOUT_MAX_RETRIES
    && IsRest(whole, slept, CallFrom(w, run, flags, attempt, timeouts))
  }

  ghost predicate IsRest(whole: Ended, slept: nat, rest: Ended) { whole == rest.(slept := slept + rest.slept) }

  lemma RestAfter(
      w: World, run: nat, flags: nat, attempt: nat, timeouts: nat, m: Move, whole: Ended, slept: nat)
    requires attempt <= RL_MAX_RETRIES && timeouts <= TIMEOUT_MAX_RETRIES
    requires m == AfterRun(w, run, flags, attempt, timeouts)
    requires IsRest(whole, slept, CallFrom(w, run, flags, attempt, timeouts))
    ensures m.Stop? ==> IsRest(whole, slept, m.c)
    ensures m.Go? ==>
      && m.t <= 1 && timeouts + m.t <= TIMEOUT_MAX_RETRIES && attempt + 1 - m.t <= RL_MAX_RETRIES
      && IsRest(whole, slept + m.nap, CallFrom(w, run + 1, m.flags, attempt + 1 - m.t, timeouts + m.t))
  {
  }

  // One run, and the backoff after a transient failure.
  method RunOnce(w: World, run: nat, flags0: nat, attempt: nat, timeoutAttempt: nat) returns (move: Move)
    requires attempt <= RL_MAX_RETRIES && timeoutAttempt <= TIMEOUT_MAX_RETRIES
    ensures move == AfterRun(w, run, flags0, attempt, timeoutAttempt)
  {
    var e := w.run(run);
    match e {
      case AbortedInRun => return Stop(Ended(RaisedAbort, run + 1, 0, flags0));
      case TimeoutExpired =>
        var stop := w.flag(flags0);
        if stop || timeoutAttempt >= TIMEOUT_MAX_RETRIES { return Stop(Ended(RaisedTimeout, run + 1, 0, flags0 + 1)); }
        return Go(flags0 + 1, 1, 0);
      case Completed(ok, hardCap, transient, _) =>
        if ok || hardCap || attempt >= RL_MAX_RETRIES || !transient {
          return Stop(Ended(Result(e), run + 1, 0, flags0));
        }
        var aborted, napped, flags := Backoff(w, RL_BACKOFF[Min(attempt, |RL_BACKOFF| - 1)], flags0);
        return if aborted then Stop(Ended(RaisedAbort, run + 1, napped, flags)) else Go(flags, 0, napped);
    }
  }

  method Agentic(w: World) returns (end: CallEnd, rounds: nat, run: nat, slept: nat)
    ensures Answered(end, rounds, run, slept) == RoundsFrom(w, 0, 0, 0)
  {
    var pendingAttempt, flags := 0, 0;
    rounds, run, slept := 0, 0, 0;
    while true
      invariant pendingAttempt <= PENDING_MAX_RETRIES
      invariant var rest := RoundsFrom(w, run, flags, pendingAttempt);
        RoundsFrom(w, 0, 0, 0) == rest.(rounds := rounds + rest.rounds, slept := slept + rest.slept)
      decreases PENDING_MAX_RETRIES - pendingAttempt
    {
      var s;
      end, run, s, flags := RunWithRetry(w, run, flags);
      rounds, slept := rounds + 1, slept + s;
      if !end.Result? { return; }
      if !(end.run.Completed? && end.run.ok) { return RaisedFailure, rounds, run, slept; }
      if !end.run.pending { return; }
      pendingAttempt := pendingAttempt + 1;
      if pendingAttempt > PENDING_MAX_RETRIES { return RaisedPending, rounds, run, slept; }
      var aborted, napped;
      aborted, napped, flags := Backoff(w, PENDING_BACKOFF[Min(pendingAttempt - 1, |PENDING_BACKOFF| - 1)], flags);
      slept := slept + napped;
      if aborted { return RaisedAbort, rounds, run, slept; }
    }
  }

  // ---- what they are good for ----

  // A backoff sleeps all of its time unless the flag is found set: then the last reading found it.
  lemma {:induction false} NapTells(w: World, wait: nat, flags: nat)
    ensures var nap := Nap(w, wait, flags);
      && nap.1 <= wait && flags <= nap.2
      && (nap.0 ==> nap.2 > flags && w.flag(nap.2 - 1))
      && (!nap.0 ==> nap.1 == wait && forall k | flags <= k < nap.2 :: !w.flag(k))
  {
    if wait > 0 && !w.flag(flags) { NapTells(w, wait - Min(5, wait), flags + 1); }
  }

  // Why a call ended with run e: nothing to retry, a budget spent, or the flag set.
  predicate Justified(w: World, e: RunEnd, flags: nat, c: Ended, attempt: nat, timeouts: nat) {
    var stopped := c.flags > flags && w.flag(c.flags - 1);
    match c.end
    case Result(r) => r == e && e.Completed? && (IsTransient(e) ==> attempt == RL_MAX_RETRIES)
    case RaisedTimeout => e.TimeoutExpired? && (stopped || timeouts == TIMEOUT_MAX_RETRIES)
    case RaisedAbort => e.AbortedInRun? || (IsTransient(e) && stopped)
    case _ => false
  }

  lemma StopTells(
      w: World, run: nat, flags: nat, attempt: nat, timeouts: nat, c: Ended)
    requires attempt <= RL_MAX_RETRIES && timeouts <= TIMEOUT_MAX_RETRIES
    requires c == CallFrom(w, run, flags, attempt, timeouts) && AfterRun(w, run, flags, attempt, timeouts).Stop?
    ensures WithinBudgets(w, run, c, attempt, timeouts) && EndsWell(w, run, flags, c, attempt, timeouts)
  {
    if attempt < RL_MAX_RETRIES { NapTells(w, RL_BACKOFF[attempt], flags); }
  }

  // A call c goes on after a run, which timed out once (t = 1) or failed transiently, with the rest.
  predicate Follows(w: World, run: nat, flags: nat, attempt: nat, t: nat, next: nat, c: Ended, rest: Ended)
    requires attempt <= RL_MAX_RETRIES
  {
    && t == (if w.run(run).TimeoutExpired? then 1 else 0) && (t == 0 ==> IsTransient(w.run(run)))
    && flags <= next && t <= attempt + 1 <= RL_MAX_RETRIES + t
    && c.end == rest.end && c.run == rest.run && c.flags == rest.flags
    && c.slept + BackoffFrom(attempt + 1 - t) == rest.slept + BackoffFrom(attempt)
  }

  lemma GoTells(
      w: World, run: nat, flags: nat, attempt: nat, timeouts: nat, c: Ended)
    returns (t: nat, next: nat, rest: Ended)
    requires attempt <= RL_MAX_RETRIES && timeouts <= TIMEOUT_MAX_RETRIES
    requires c == CallFrom(w, run, flags, attempt, timeouts) && AfterRun(w, run, flags, attempt, timeouts).Go?
    ensures t + timeouts <= TIMEOUT_MAX_RETRIES && attempt + 1 - t <= RL_MAX_RETRIES
    ensures Follows(w, run, flags, attempt, t, next, c, rest)
    ensures rest == CallFrom(w, run + 1, next, attempt + 1 - t, timeouts + t)
  {
    if attempt < RL_MAX_RETRIES { NapTells(w, RL_BACKOFF[attempt], flags); }
    var m := AfterRun(w, run, flags, attempt, timeouts);
    t, next := m.t, m.flags;
    rest := CallFrom(w, run + 1, next, attempt + 1 - t, timeouts + t);
  }

  lemma BackoffTotals()
    ensures BackoffFrom(0) == 450 && PendingFrom(0) == 50
  {
    assert BackoffFrom(2) == 360 && PendingFrom(1) == 45;
  }

  // A call after some retries: all its runs but the last are retried, timeouts and transient failures
  // within what is left of both budgets, and the backoffs are within those still to come ...
  predicate WithinBudgets(w: World, run: nat, c: Ended, attempt: nat, timeouts: nat)
    requires attempt <= RL_MAX_RETRIES
  {
    && c.slept <= BackoffFrom(attempt)
    && c.run > run && c.run - 1 - run == Timeouts(w, run, c.run - 1) + Transients(w, run, c.run - 1)
    && timeouts + Timeouts(w, run, c.run - 1) <= TIMEOUT_MAX_RETRIES
    && attempt + Transients(w, run, c.run - 1) <= RL_MAX_RETRIES
  }

  lemma {:induction false} CallRetries(
      w: World, run: nat, flags: nat, attempt: nat, timeouts: nat, c: Ended)
    requires attempt <= RL_MAX_RETRIES && timeouts <= TIMEOUT_MAX_RETRIES
    requires c == CallFrom(w, run, flags, attempt, timeouts)
    ensures WithinBudgets(w, run, c, attempt, timeouts)
    decreases RL_MAX_RETRIES - attempt + TIMEOUT_MAX_RETRIES - timeouts, 1
  {
    if AfterRun(w, run, flags, attempt, timeouts).Go? {
      CallRetriesOn(w, run, flags, attempt, timeouts, c);
    } else {
      StopTells(w, run, flags, attempt, timeouts, c);
    }
  }

  lemma {:induction false} CallRetriesOn(
      w: World, run: nat, flags: nat, attempt: nat, timeouts: nat, c: Ended)
    requires attempt <= RL_MAX_RETRIES && timeouts <= TIMEOUT_MAX_RETRIES
    requires c == CallFrom(w, run, flags, attempt, timeouts) && AfterRun(w, run, flags, attempt, timeouts).Go?
    ensures WithinBudgets(w, run, c, attempt, timeouts)
    decreases RL_MAX_RETRIES - attempt + TIMEOUT_MAX_RETRIES - timeouts, 0
  {
    var t, next, rest := GoTells(w, run, flags, attempt, timeouts, c);
    CallRetries(w, run + 1, next, attempt + 1 - t, timeouts + t, rest);
    WithinEarlier(w, run, flags, attempt, timeouts, t, next, c, rest);
  }

  lemma WithinEarlier(
      w: World, run: nat, flags: nat, attempt: nat, timeouts: nat, t: nat, next: nat, c: Ended, rest: Ended)
    requires attempt <= RL_MAX_RETRIES && Follows(w, run, flags, attempt, t, next, c, rest)
    requires WithinBudgets(w, run + 1, rest, attempt + 1 - t, timeouts + t)
    ensures WithinBudgets(w, run, c, attempt, timeouts)
  {
  }

  // ... and it ends with its last run for a good reason.
  predicate EndsWell(w: World, run: nat, flags: nat, c: Ended, attempt: nat, timeouts: nat) {
    && c.run > run && flags <= c.flags
    && Justified(w, w.run(c.run - 1), flags, c,
                 attempt + Transients(w, run, c.run - 1), timeouts + Timeouts(w, run, c.run - 1))
  }

  lemma {:induction false} CallEnds(
      w: World, run: nat, flags: nat, attempt: nat, timeouts: nat, c: Ended)
    requires attempt <= RL_MAX_RETRIES && timeouts <= TIMEOUT_MAX_RETRIES
    requires c == CallFrom(w, run, flags, attempt, timeouts)
    ensures EndsWell(w, run, flags, c, attempt, timeouts)
    decreases RL_MAX_RETRIES - attempt + TIMEOUT_MAX_RETRIES - timeouts, 1
  {
    if AfterRun(w, run, flags, attempt, timeouts).Go? {
      CallEndsOn(w, run, flags, attempt, timeouts, c);
    } else {
      StopTells(w, run, flags, attempt, timeouts, c);
    }
  }

  lemma {:induction false} CallEndsOn(
      w: World, run: nat, flags: nat, attempt: nat, timeouts: nat, c: Ended)
    requires attempt <= RL_MAX_RETRIES && timeouts <= TIMEOUT_MAX_RETRIES
    requires c == CallFrom(w, run, flags, attempt, timeouts) && AfterRun(w, run, flags, attempt, timeouts).Go?
    ensures EndsWell(w, run, flags, c, attempt, timeouts)
    decreases RL_MAX_RETRIES - attempt + TIMEOUT_MAX_RETRIES - timeouts, 0
  {
    var t, next, rest := GoTells(w, run, flags, attempt, timeouts, c);
    CallEnds(w, run + 1, next, attempt + 1 - t, timeouts + t, rest);
    EndsEarlier(w, run, flags, attempt, timeouts, t, next, c, rest);
  }

  lemma EndsEarlier(
      w: World, run: nat, flags: nat, attempt: nat, timeouts: nat, t: nat, next: nat, c: Ended, rest: Ended)
    requires attempt <= RL_MAX_RETRIES && Follows(w, run, flags, attempt, t, next, c, rest)
    requires EndsWell(w, run + 1, next, rest, attempt + 1 - t, timeouts + t)
    ensures EndsWell(w, run, flags, c, attempt, timeouts)
  {
  }

  // A call makes at most six runs and sleeps at most 450 seconds; every run but the last was retried
  // within both budgets, and the end says why the last was not.
  lemma CallIsBounded(w: World, run: nat, flags: nat, c: Ended)
    requires c == Call(w, run, flags)
    ensures 1 <= c.run - run <= 6 && c.slept <= 450
    ensures WithinBudgets(w, run, c, 0, 0) && EndsWell(w, run, flags, c, 0, 0)
  {
    CallEnds(w, run, flags, 0, 0, c);
    CallRetries(w, run, flags, 0, 0, c);
    BackoffTotals();
  }

  // Both bounds are reached: by a timeout and then transient failures, with the flag clear.
  lemma WorstCall() returns (w: World)
    ensures w.run(0).TimeoutExpired? && forall k | 1 <= k <= 5 :: IsTransient(w.run(k))
    ensures var c := Call(w, 0, 0); c.run == 6 && c.slept == 450 && c.end == Result(w.run(5))
  {
    w := World(n => if n == 0 then TimeoutExpired else Completed(false, false, true, false), _ => false);
    WorstFrom(w, 1, 1, 0, CallFrom(w, 1, 1, 0, 1));
    BackoffTotals();
    FirstTimesOut(w, 0, 0);
  }

  lemma FirstTimesOut(w: World, run: nat, flags: nat)
    requires w.run(run).TimeoutExpired? && !w.flag(flags)
    ensures Call(w, run, flags) == CallFrom(w, run + 1, flags + 1, 0, 1)
  {
  }

  lemma {:induction false} WorstFrom(
      w: World, run: nat, flags: nat, attempt: nat, c: Ended)
    requires 1 <= run && attempt <= RL_MAX_RETRIES && forall k | k >= 1 :: IsTransient(w.run(k))
    requires (forall k :: !w.flag(k)) && c == CallFrom(w, run, flags, attempt, 1)
    ensures c.run == run + 1 + (RL_MAX_RETRIES - attempt) && c.end == Result(w.run(c.run - 1))
    ensures c.slept == BackoffFrom(attempt)
    decreases RL_MAX_RETRIES - attempt
  {
    assert IsTransient(w.run(run));
    var next := WorstRun(w, run, flags, attempt);
    if attempt < RL_MAX_RETRIES {
      var rest := CallFrom(w, run + 1, next, attempt + 1, 1);
      WorstFrom(w, run + 1, next, attempt + 1, rest);
      assert c == rest.(slept := RL_BACKOFF[attempt] + rest.slept);
    }
  }

  lemma WorstRun(w: World, run: nat, flags: nat, attempt: nat) returns (next: nat)
    requires attempt <= RL_MAX_RETRIES && IsTransient(w.run(run)) && forall k :: !w.flag(k)
    ensures AfterRun(w, run, flags, attempt, 1)
         == if attempt == RL_MAX_RETRIES then Stop(Ended(Result(w.run(run)), run + 1, 0, flags))
            else Go(next, 0, RL_BACKOFF[attempt])
  {
    next := 0;
    if attempt < RL_MAX_RETRIES {
      NapTells(w, RL_BACKOFF[attempt], flags);
      next := Nap(w, RL_BACKOFF[attempt], flags).2;
    }
  }

  // An agentic call makes at most four rounds; its result is what the last run of all answered, no
  // longer pending, and it gives up on pending answers only after four of them.
  predicate AnswersWell(w: World, run: nat, pending: nat, a: Answered) {
    && 1 <= a.rounds <= 1 + PENDING_MAX_RETRIES - pending && a.rounds <= a.run - run <= 6 * a.rounds
    && var last := w.run(a.run - 1);
       match a.end
       case Result(e) => e == last && e.Completed? && e.ok && !e.pending
       case RaisedPending => a.rounds == 1 + PENDING_MAX_RETRIES - pending && IsPending(last)
       case RaisedFailure => last.Completed? && !last.ok
       case RaisedTimeout => last.TimeoutExpired?
       case RaisedAbort => last.AbortedInRun? || IsTransient(last) || IsPending(last)
  }

  lemma {:induction false} AgenticTells(
      w: World, run: nat, flags: nat, pending: nat, a: Answered)
    requires pending <= PENDING_MAX_RETRIES && a == RoundsFrom(w, run, flags, pending)
    ensures AnswersWell(w, run, pending, a) && a.slept <= 450 * a.rounds + PendingFrom(pending)
    decreases PENDING_MAX_RETRIES - pending
  {
    var c := Call(w, run, flags);
    CallIsBounded(w, run, flags, c);
    if c.end.Result? && IsPending(c.end.run) && pending < PENDING_MAX_RETRIES {
      NapTells(w, PENDING_BACKOFF[pending], c.flags);
      var nap := Nap(w, PENDING_BACKOFF[pending], c.flags);
      if !nap.0 {
        var rest := RoundsFrom(w, c.run, nap.2, pending + 1);
        AgenticTells(w, c.run, nap.2, pending + 1, rest);
        OneRoundMore(w, run, c.run, pending, a, rest);
      }
    }
  }

  lemma OneRoundMore(
      w: World, run: nat, next: nat, pending: nat, a: Answered, rest: Answered)
    requires AnswersWell(w, next, pending + 1, rest) && run < next <= run + 6
    requires a.end == rest.end && a.rounds == rest.rounds + 1 && a.run == rest.run
    ensures AnswersWell(w, run, pending, a)
  {
  }

  predicate IsPending(e: RunEnd) { e.Completed? && e.ok && e.pending }

  // The run and the reading at which round k begins, if the rounds before it all go on.
  function RoundAt(w: World, run: nat, flags: nat, pending: nat, k: nat): (nat, nat)
    requires pending + k <= PENDING_MAX_RETRIES
    decreases k
  {
    if k == 0 then (run, flags)
    else
      var c := Call(w, run, flags);
      RoundAt(w, c.run, Nap(w, PENDING_BACKOFF[pending], c.flags).2, pending + 1, k - 1)
  }

  // Every round but the last ended with a run whose answer was pending, and a backoff to its end.
  lemma {:induction false} RoundsGoOn(w: World, run: nat, flags: nat, pending: nat, k: nat, a: Answered)
    requires pending <= PENDING_MAX_RETRIES && a == RoundsFrom(w, run, flags, pending) && k + 1 < a.rounds
    ensures pending + k < PENDING_MAX_RETRIES
    ensures var at := RoundAt(w, run, flags, pending, k); var c := Call(w, at.0, at.1);
      && c.end.Result? && IsPending(c.end.run)
      && var nap := Nap(w, PENDING_BACKOFF[pending + k], c.flags);
         !nap.0 && nap.1 == PENDING_BACKOFF[pending + k]
    decreases k
  {
    var c := Call(w, run, flags);
    NapTells(w, PENDING_BACKOFF[pending], c.flags);
    var nap := Nap(w, PENDING_BACKOFF[pending], c.flags);
    if k > 0 { RoundsGoOn(w, c.run, nap.2, pending + 1, k - 1, RoundsFrom(w, c.run, nap.2, pending + 1)); }
  }

  // ---- what a call does with each end of a run ----

  // A completed run that is ok, or capped, or failed for good, is the result, at once.
  lemma ResultsEndTheCall(w: World, run: nat, flags: nat, ok: bool, hardCap: bool, transient: bool, pending: bool)
    requires w.run(run) == Completed(ok, hardCap, transient, pending) && (ok || hardCap || !transient)
    ensures Call(w, run, flags) == Ended(Result(w.run(run)), run + 1, 0, flags)
  {
  }

  // So does the abort seen inside a run; a timeout ends it when the flag is set.
  lemma AbortsEndTheCall(w: World, run: nat, flags: nat)
    ensures w.run(run) == AbortedInRun ==> Call(w, run, flags) == Ended(RaisedAbort, run + 1, 0, flags)
    ensures w.run(run) == TimeoutExpired && w.flag(flags) ==>
      Call(w, run, flags) == Ended(RaisedTimeout, run + 1, 0, flags + 1)
  {
  }

  // One timeout is retried, a second one raised.
  lemma TimeoutIsRetriedOnce(w: World, run: nat, flags: nat)
    requires w.run(run) == TimeoutExpired && !w.flag(flags)
    ensures w.run(run + 1) == TimeoutExpired ==>
      Call(w, run, flags) == Ended(RaisedTimeout, run + 2, 0, flags + 2)
    ensures w.run(run + 1).Completed? && w.run(run + 1).ok ==>
      Call(w, run, flags) == Ended(Result(w.run(run + 1)), run + 2, 0, flags + 1)
  {
  }

  predicate FailsInPassing(e: RunEnd) { e.Completed? && !e.ok && !e.hardCap && e.transient }

  // The seconds slept after n transient failures.
  function SleptAfter(n: nat): nat
    requires n <= 4
  {
    match n case 0 => 0 case 1 => 30 case 2 => 90 case 3 => 210 case 4 => 450
  }

  // Up to four transient failures are slept off, half a minute and then twice as long each time, and a
  // run that is ok after them is the result.
  lemma {:induction false} FailuresAreSleptOff(w: World, run: nat, flags: nat, attempt: nat, timeouts: nat, n: nat)
    requires attempt + n <= 4 && timeouts <= 1 && forall k: nat :: !w.flag(k)
    requires forall k | run <= k < run + n :: FailsInPassing(w.run(k))
    requires w.run(run + n).Completed? && w.run(run + n).ok
    ensures var c := CallFrom(w, run, flags, attempt, timeouts);
      && c.end == Result(w.run(run + n)) && c.run == run + n + 1
      && c.slept == SleptAfter(attempt + n) - SleptAfter(attempt)
    decreases n
  {
    if n > 0 {
      assert FailsInPassing(w.run(run));
      NapTells(w, RL_BACKOFF[attempt], flags);
      var nap := Nap(w, RL_BACKOFF[attempt], flags);
      FailuresAreSleptOff(w, run + 1, nap.2, attempt + 1, timeouts, n - 1);
    }
  }

  // A fifth is the result.
  lemma FifthFailureIsTheResult(w: World, run: nat, flags: nat)
    requires FailsInPassing(w.run(run))
    ensures CallFrom(w, run, flags, 4, 0) == Ended(Result(w.run(run)), run + 1, 0, flags)
  {
  }

  // A pending answer is asked for again after a while: five seconds, fifteen, and half a minute.
  lemma PendingIsAskedAgain(w: World, run: nat, flags: nat, pending: nat, text: RunEnd)
    requires pending < 3 && forall k: nat :: !w.flag(k)
    requires IsPending(w.run(run)) && w.run(run + 1) == text && text.Completed? && text.ok && !text.pending
    ensures var a := RoundsFrom(w, run, flags, pending);
      && a.end == Result(text) && a.rounds == 2 && a.run == run + 2
      && a.slept == (match pending case 0 => 5 case 1 => 15 case 2 => 30)
  {
    NapTells(w, PENDING_BACKOFF[pending], flags);
    ResultsEndTheCall(w, run, flags, true, w.run(run).hardCap, w.run(run).transient, true);
    var nap := Nap(w, PENDING_BACKOFF[pending], flags);
    ResultsEndTheCall(w, run + 1, nap.2, true, text.hardCap, text.transient, false);
  }
}
