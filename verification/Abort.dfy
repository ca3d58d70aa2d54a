// Cooperative abort of worker subprocesses: any number of workers running `claude` processes, one
// caller of abort(), a stop flag, and a set of live processes behind a lock.  Each step below is
// one that other threads can see: an event read or set, one critical section, or a process call.

module Abort {
  import opened Common

  type Proc = nat

  // Where a worker is.  Each phase names the step it takes next.
  datatype Phase =
    | Idle                              // outside prompt()/agentic()
    | Launching                         // about to start a process
    | Unregistered(p: Proc)             // started; about to add itself to the live set
    | Checking(p: Proc)                 // top of the heartbeat loop; about to read the flag
    | Waiting(p: Proc)                  // flag was clear; about to block, or past its deadline
    | Blocked(p: Proc)                  // inside communicate()
    | Reaping(p: Proc, why: End)        // killed its own process; about to leave the loop
    | Leaving(p: Proc, why: End)        // about to discard itself from the live set
    | Deciding(why: End)                // back in the retry loops
    | Napping                           // in a backoff loop, about to read the flag
    | Napped                            // a nap is over

  // How one process run ended for its owner.
  datatype End = Finished | TimedOut | AbortSeen

  // `streaming` marks a call served by the streaming runner.  `late` counts, for proofs only,
  // the processes the current call has started since the flag was set.
  datatype Worker = Worker(phase: Phase, streaming: bool, late: nat)

  // abort(): set the flag, snapshot the live set, kill the snapshot one process at a time.
  datatype Aborter = Ready | FlagSet | Killing(snapshot: set<Proc>, todo: set<Proc>) | Returned(snapshot: set<Proc>)

  datatype State = State(flag: bool, live: set<Proc>, started: set<Proc>, dead: set<Proc>,
                         workers: seq<Worker>, aborter: Aborter)

  predicate Init(s: State) {
    && !s.flag && s.live == {} && s.started == {} && s.dead == {} && s.aborter == Ready
    && forall i | 0 <= i < |s.workers| :: s.workers[i].phase == Idle && s.workers[i].late == 0
  }

  // ---- the steps of a worker ----

  ghost predicate WorkerStep(s: State, t: State, i: nat) {
    && i < |s.workers| && |t.workers| == |s.workers|
    && t.aborter == s.aborter && t.flag == s.flag
    && (forall j | 0 <= j < |s.workers| && j != i :: t.workers[j] == s.workers[j])
    && var w, v := s.workers[i], t.workers[i];
       match w.phase
       case Idle => Enter(s, t, w, v)
       case Launching => Launch(s, t, w, v)
       case Unregistered(p) => Register(s, t, w, v)
       case Checking(p) => Check(s, t, w, v)
       case Waiting(p) => Block(s, t, w, v)
       case Blocked(p) => Unblock(s, t, w, v)
       case Reaping(p, why) => v == w.(phase := Leaving(p, why)) && SameProcs(s, t)
       case Leaving(p, why) => Discard(s, t, w, v)
       case Deciding(why) => Decide(s, t, w, v)
       case Napping => v == w.(phase := if s.flag then Idle else Napped) && SameProcs(s, t)
       case Napped => v.phase in {Napping, Launching} && v == w.(phase := v.phase) && SameProcs(s, t)
  }

  predicate SameProcs(s: State, t: State) { t.live == s.live && t.started == s.started && t.dead == s.dead }

  // A new call starts only if it reads the flag clear; it may be of either kind.
  predicate Enter(s: State, t: State, w: Worker, v: Worker) {
    !s.flag && v == Worker(Launching, v.streaming, 0) && SameProcs(s, t)
  }

  predicate Launch(s: State, t: State, w: Worker, v: Worker) {
    && v.phase.Unregistered? && v.phase.p !in s.started
    && v == w.(phase := v.phase, late := if s.flag then w.late + 1 else w.late)
    && t.started == s.started + {v.phase.p} && t.live == s.live && t.dead == s.dead
  }

  // The streaming runner goes straight on to wait for its process.
  predicate Register(s: State, t: State, w: Worker, v: Worker)
    requires w.phase.Unregistered?
  {
    && v == w.(phase := if w.streaming then Blocked(w.phase.p) else Checking(w.phase.p))
    && t.live == s.live + {w.phase.p} && t.started == s.started && t.dead == s.dead
  }

  predicate Check(s: State, t: State, w: Worker, v: Worker)
    requires w.phase.Checking?
  {
    var p := w.phase.p;
    && t.live == s.live && t.started == s.started
    && (if s.flag then v == w.(phase := Reaping(p, AbortSeen)) && t.dead == s.dead + {p}
        else v == w.(phase := Waiting(p)) && t.dead == s.dead)
  }

  predicate Block(s: State, t: State, w: Worker, v: Worker)
    requires w.phase.Waiting?
  {
    var p := w.phase.p;
    && t.live == s.live && t.started == s.started
    && (|| (v == w.(phase := Blocked(p)) && t.dead == s.dead)
        || (v == w.(phase := Reaping(p, TimedOut)) && t.dead == s.dead + {p}))
  }

  // communicate() returns once the process is gone; on the heartbeat path it also gives up after
  // an interval, and the streaming runner kills its process at its own deadline.
  predicate Unblock(s: State, t: State, w: Worker, v: Worker)
    requires w.phase.Blocked?
  {
    var p := w.phase.p;
    && t.live == s.live && t.started == s.started
    && (|| (p in s.dead && v == w.(phase := Leaving(p, Finished)) && t.dead == s.dead)
        || (!w.streaming && v == w.(phase := Checking(p)) && t.dead == s.dead)
        || (w.streaming && v == w.(phase := Reaping(p, TimedOut)) && t.dead == s.dead + {p}))
  }

  // The abort path raises out of the call; other ends go back to the retry loops.
  predicate Discard(s: State, t: State, w: Worker, v: Worker)
    requires w.phase.Leaving?
  {
    && v == w.(phase := if w.phase.why.AbortSeen? then Idle else Deciding(w.phase.why))
    && t.live == s.live - {w.phase.p} && t.started == s.started && t.dead == s.dead
  }

  // A finished run ends the call or is retried after a backoff; a timeout is retried at once, if
  // the flag is still clear, or raised.
  predicate Decide(s: State, t: State, w: Worker, v: Worker)
    requires w.phase.Deciding?
  {
    && SameProcs(s, t) && v == w.(phase := v.phase)
    && (|| v.phase == Idle
        || (w.phase.why.Finished? && v.phase == Napping)
        || (w.phase.why.TimedOut? && !s.flag && v.phase == Launching))
  }

  // ---- the other steps ----

  ghost predicate AbortStep(s: State, t: State) {
    && t.workers == s.workers && t.live == s.live && t.started == s.started
    && match s.aborter
       case Ready => t.flag && t.aborter == FlagSet && t.dead == s.dead
       case FlagSet => t.flag == s.flag && t.aborter == Killing(s.live, s.live) && t.dead == s.dead
       case Killing(all, todo) =>
         t.flag == s.flag
         && (if todo == {} then t.aborter == Returned(all) && t.dead == s.dead
          else exists p | p in todo :: t.aborter == Killing(all, todo - {p}) && t.dead == s.dead + {p})
       case Returned(_) => false
  }

  // A process may end by itself at any time.
  ghost predicate ExitStep(s: State, t: State) {
    exists p | p in s.started :: t == s.(dead := s.dead + {p})
  }

  ghost predicate Next(s: State, t: State) {
    AbortStep(s, t) || ExitStep(s, t) || exists i: nat :: WorkerStep(s, t, i)
  }

  ghost predicate Run(tr: seq<State>) {
    && tr != [] && Init(tr[0])
    && forall k | 0 <= k < |tr| - 1 :: Next(tr[k], tr[k+1])
  }

  // ---- the invariant ----

  function ProcOf(ph: Phase): Option<Proc> {
    match ph
    case Unregistered(p) => Some(p)
    case Checking(p) => Some(p)
    case Waiting(p) => Some(p)
    case Blocked(p) => Some(p)
    case Reaping(p, _) => Some(p)
    case Leaving(p, _) => Some(p)
    case _ => None
  }

  predicate Registered(ph: Phase) { ProcOf(ph).Some? && !ph.Unregistered? }

  ghost predicate WorkerInv(s: State, w: Worker) {
    && (ProcOf(w.phase).Some? ==> ProcOf(w.phase).value in s.started)
    && (Registered(w.phase) ==> ProcOf(w.phase).value in s.live)
    && (w.phase.Reaping? || w.phase.Leaving? ==> w.phase.p in s.dead)
    && (w.streaming ==> !w.phase.Checking? && !w.phase.Waiting?)
    // a heartbeat worker past its check was registered before the snapshot
    && (!w.streaming && (w.phase.Waiting? || w.phase.Blocked?) ==> InSnapshot(s.aborter, w.phase.p))
    // once the flag is set a call starts one process at most
    && w.late <= 1
    && (w.late == 1 ==> s.flag && !w.phase.Launching? && !w.phase.Napped?)
  }

  predicate InSnapshot(a: Aborter, p: Proc) { a.Killing? || a.Returned? ==> p in a.snapshot }

  ghost predicate AborterInv(s: State) {
    && (s.flag <==> s.aborter != Ready)
    && (s.aborter.Killing? ==> s.aborter.snapshot <= s.dead + s.aborter.todo)
    && (s.aborter.Returned? ==> s.aborter.snapshot <= s.dead)
  }

  // No two workers own the same process.
  ghost predicate Disjoint(s: State) {
    forall i, j | 0 <= i < |s.workers| && 0 <= j < |s.workers| && i != j && ProcOf(s.workers[i].phase).Some? ::
      ProcOf(s.workers[i].phase) != ProcOf(s.workers[j].phase)
  }

  ghost predicate Inv(s: State) {
    && AborterInv(s) && s.live <= s.started && Disjoint(s)
    && (forall i | 0 <= i < |s.workers| :: WorkerInv(s, s.workers[i]))
  }

  lemma WorkerStepKeepsDisjoint(s: State, t: State, i: nat)
    requires Inv(s) && WorkerStep(s, t, i)
    ensures Disjoint(t) && AborterInv(t) && t.live <= t.started
  {
    assert WorkerInv(s, s.workers[i]);
    forall j | 0 <= j < |t.workers| && j != i && ProcOf(t.workers[i].phase).Some?
      ensures ProcOf(t.workers[i].phase) != ProcOf(t.workers[j].phase)
    {
      assert WorkerInv(s, s.workers[j]);
    }
  }

  lemma WorkerStepKeepsOwn(s: State, t: State, i: nat)
    requires Inv(s) && WorkerStep(s, t, i)
    ensures WorkerInv(t, t.workers[i])
  {
    assert WorkerInv(s, s.workers[i]);
  }

  // What one worker does leaves the others as they were: it discards nobody else's process.
  lemma WorkerStepKeepsOthers(s: State, t: State, i: nat, j: nat)
    requires Inv(s) && WorkerStep(s, t, i) && j < |s.workers| && j != i
    ensures WorkerInv(t, t.workers[j])
  {
    assert WorkerInv(s, s.workers[j]) && WorkerInv(s, s.workers[i]);
    assert s.live - {if ProcOf(s.workers[i].phase).Some? then ProcOf(s.workers[i].phase).value else 0} <= t.live
        || s.live <= t.live;
  }

  lemma NextKeepsInv(s: State, t: State)
    requires Inv(s) && Next(s, t)
    ensures Inv(t)
  {
    if i: nat :| WorkerStep(s, t, i) {
      WorkerStepKeepsDisjoint(s, t, i);
      WorkerStepKeepsOwn(s, t, i);
      forall j | 0 <= j < |t.workers| && j != i ensures WorkerInv(t, t.workers[j]) {
        WorkerStepKeepsOthers(s, t, i, j);
      }
    } else {
      forall j | 0 <= j < |t.workers| ensures WorkerInv(t, t.workers[j]) { assert WorkerInv(s, s.workers[j]); }
    }
  }

  lemma {:induction false} RunKeepsInv(tr: seq<State>, k: nat)
    requires Run(tr) && k < |tr|
    ensures Inv(tr[k])
  {
    if k > 0 {
      RunKeepsInv(tr, k - 1);
      assert Next(tr[k-1], tr[k-1+1]);
      NextKeepsInv(tr[k-1], tr[k]);
    }
  }

  // Every process in the live set has an owner that will discard it.
  ghost predicate LiveAreOwned(s: State) {
    forall p | p in s.live :: exists i :: 0 <= i < |s.workers| && OwnsLive(s.workers[i], p)
  }

  predicate OwnsLive(w: Worker, p: Proc) { Registered(w.phase) && ProcOf(w.phase) == Some(p) }

  lemma NextKeepsOwners(s: State, t: State)
    requires Inv(s) && LiveAreOwned(s) && Next(s, t)
    ensures LiveAreOwned(t)
  {
    if i: nat :| WorkerStep(s, t, i) {
      assert WorkerInv(s, s.workers[i]);
      forall p | p in t.live ensures exists j :: 0 <= j < |t.workers| && OwnsLive(t.workers[j], p) {
        if p in s.live {
          var j :| 0 <= j < |s.workers| && OwnsLive(s.workers[j], p);
          assert j != i ==> t.workers[j] == s.workers[j];
          assert OwnsLive(t.workers[j], p);
        } else {
          assert OwnsLive(t.workers[i], p);
        }
      }
    }
  }

  // In every state of every run: once all workers are idle the live set is empty.
  lemma {:induction false} IdleLeavesNothingLive(tr: seq<State>, k: nat)
    requires Run(tr) && k < |tr|
    ensures LiveAreOwned(tr[k])
    ensures (forall i | 0 <= i < |tr[k].workers| :: tr[k].workers[i].phase.Idle?) ==> tr[k].live == {}
  {
    if k > 0 {
      IdleLeavesNothingLive(tr, k - 1);
      RunKeepsInv(tr, k - 1);
      assert Next(tr[k-1], tr[k-1+1]);
      NextKeepsOwners(tr[k-1], tr[k]);
    }
  }

  // ---- safety ----

  predicate BlockedOnLiveProcess(s: State, i: nat) {
    i < |s.workers| && s.workers[i].phase.Blocked? && s.workers[i].phase.p !in s.dead
  }

  // In every state of every run, once abort() has returned no heartbeat worker waits for a live
  // process, and a streaming worker does only for one registered after the snapshot.
  lemma AbortLeavesNobodyWaiting(tr: seq<State>, k: nat, i: nat)
    requires Run(tr) && k < |tr| && tr[k].aborter.Returned? && BlockedOnLiveProcess(tr[k], i)
    ensures tr[k].workers[i].streaming && tr[k].workers[i].phase.p !in tr[k].aborter.snapshot
  {
    RunKeepsInv(tr, k);
    assert WorkerInv(tr[k], tr[k].workers[i]);
  }

  // In every run, a call starts at most one process after the flag is set.
  lemma AtMostOneLateProcess(tr: seq<State>, k: nat, i: nat)
    requires Run(tr) && k < |tr| && i < |tr[k].workers|
    ensures tr[k].workers[i].late <= 1
  {
    RunKeepsInv(tr, k);
    assert WorkerInv(tr[k], tr[k].workers[i]);
  }

  // The streaming runner, which does not read the flag again after registering, can be left
  // waiting for a live process.
  lemma StreamingWorkerCanEscape() returns (tr: seq<State>)
    ensures Run(tr) && tr[|tr|-1].aborter.Returned? && BlockedOnLiveProcess(tr[|tr|-1], 0)
  {
    var s0 := State(false, {}, {}, {}, [Worker(Idle, true, 0)], Ready);
    var s1 := s0.(workers := [Worker(Launching, true, 0)]);
    var s2 := s1.(workers := [Worker(Unregistered(7), true, 0)], started := {7});
    var s3 := s2.(flag := true, aborter := FlagSet);
    var s4 := s3.(aborter := Killing({}, {}));
    var s5 := s4.(aborter := Returned({}));
    var s6 := s5.(workers := [Worker(Blocked(7), true, 0)], live := {7});
    assert WorkerStep(s0, s1, 0) && WorkerStep(s1, s2, 0) && WorkerStep(s5, s6, 0);
    assert AbortStep(s2, s3) && AbortStep(s3, s4) && AbortStep(s4, s5);
    tr := [s0, s1, s2, s3, s4, s5, s6];
  }

  // ---- draining ----

  // How many steps a worker can still take once the flag is set.
  function Rank(ph: Phase): nat {
    match ph
    case Idle => 0
    case Napping => 1
    case Deciding(_) => 2
    case Leaving(_, _) => 3
    case Reaping(_, _) => 4
    case Checking(_) => 5
    case Blocked(_) => 6
    case Waiting(_) => 7
    case Unregistered(_) => 7
    case Launching => 8
    case Napped => 9
  }

  // The steps worker i takes between two points of a run: every one changes its phase.
  function Steps(tr: seq<State>, a: nat, b: nat, i: nat): nat
    requires a <= b < |tr|
  {
    if a == b then 0
    else Steps(tr, a, b - 1, i) + (if PhaseOf(tr[b], i) != PhaseOf(tr[b-1], i) then 1 else 0)
  }

  function PhaseOf(s: State, i: nat): Option<Phase> {
    if i < |s.workers| then Some(s.workers[i].phase) else None
  }

  lemma {:induction false} SameCrew(tr: seq<State>, k: nat)
    requires Run(tr) && k < |tr|
    ensures |tr[k].workers| == |tr[0].workers|
  {
    if k > 0 {
      SameCrew(tr, k - 1);
      assert Next(tr[k-1], tr[k-1+1]);
    }
  }

  lemma StepLowersRank(s: State, t: State, i: nat)
    requires s.flag && Next(s, t) && i < |s.workers|
    ensures t.flag && |t.workers| == |s.workers|
    ensures t.workers[i].phase == s.workers[i].phase || Rank(t.workers[i].phase) < Rank(s.workers[i].phase)
  {
    if j: nat :| WorkerStep(s, t, j) {
    }
  }

  // From the moment the flag is set, in every run, a worker takes at most nine more steps ...
  lemma {:induction false} WorkersDrain(tr: seq<State>, a: nat, b: nat, i: nat)
    requires Run(tr) && a <= b < |tr| && i < |tr[0].workers| && tr[a].flag
    ensures tr[b].flag && i < |tr[a].workers| == |tr[b].workers|
    ensures Rank(tr[b].workers[i].phase) + Steps(tr, a, b, i) <= Rank(tr[a].workers[i].phase) <= 9
  {
    SameCrew(tr, a);
    if a < b {
      WorkersDrain(tr, a, b - 1, i);
      assert Next(tr[b-1], tr[b-1+1]);
      StepLowersRank(tr[b-1], tr[b], i);
    }
  }

  // ... and none of them is stuck: a worker still in a call always has a next step.
  lemma WorkersAreNeverStuck(s: State, i: nat) returns (t: State)
    requires Inv(s) && i < |s.workers| && !s.workers[i].phase.Idle?
    ensures WorkerStep(s, t, i)
  {
    var w := s.workers[i];
    match w.phase
    case Launching =>
      var p := FreshProc(s.started);
      t := s.(workers := s.workers[i := w.(phase := Unregistered(p), late := if s.flag then w.late + 1 else w.late)],
              started := s.started + {p});
    case Unregistered(p) =>
      t := s.(workers := s.workers[i := w.(phase := if w.streaming then Blocked(p) else Checking(p))],
              live := s.live + {p});
    case Checking(p) =>
      t := if s.flag then s.(workers := s.workers[i := w.(phase := Reaping(p, AbortSeen))], dead := s.dead + {p})
           else s.(workers := s.workers[i := w.(phase := Waiting(p))]);
    case Waiting(p) => t := s.(workers := s.workers[i := w.(phase := Blocked(p))]);
    case Blocked(p) =>
      t := if w.streaming then s.(workers := s.workers[i := w.(phase := Reaping(p, TimedOut))], dead := s.dead + {p})
           else s.(workers := s.workers[i := w.(phase := Checking(p))]);
    case Reaping(p, why) => t := s.(workers := s.workers[i := w.(phase := Leaving(p, why))]);
    case Leaving(p, why) =>
      t := s.(workers := s.workers[i := w.(phase := if why.AbortSeen? then Idle else Deciding(why))],
              live := s.live - {p});
    case Deciding(why) => t := s.(workers := s.workers[i := w.(phase := Idle)]);
    case Napping => t := s.(workers := s.workers[i := w.(phase := if s.flag then Idle else Napped)]);
    case Napped => t := s.(workers := s.workers[i := w.(phase := Napping)]);
  }

  lemma FreshProc(used: set<Proc>) returns (p: Proc)
    ensures p !in used
  {
    p := 0;
    if used != {} {
      var m := Highest(used);
      p := m + 1;
    }
  }

  lemma {:induction false} Highest(used: set<Proc>) returns (m: Proc)
    requires used != {}
    ensures m in used && forall q | q in used :: q <= m
  {
    var x :| x in used;
    m := x;
    if used != {x} {
      var n := Highest(used - {x});
      assert forall q | q in used :: q == x || q in used - {x};
      m := if n > x then n else x;
    }
  }
}
