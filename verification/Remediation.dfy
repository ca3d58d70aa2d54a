// Remediation runs over a list of findings: checkpoints keyed by the finding's number, each bound
// to the identity of the finding it was made for, so that a resumed run skips nothing else.

module Remediation {
  import opened Common
  import opened PyText

  // ---- the identity of a finding ----

  datatype Finding = Finding(index: int, title: Option<string>, file: Option<string>, body: Option<string>)

  function Text(s: Option<string>): string { match s case None => "" case Some(t) => t }

  const NUL := '\0'

  function Ended(s: string): string { s + [NUL] }

  // The text fed to SHA-256: the number, title, file and body, each ended by a NUL.
  function Encoding(f: Finding): string {
    Ended(IntText(f.index)) + (Ended(Text(f.title)) + (Ended(Text(f.file)) + Ended(Text(f.body))))
  }

  // SHA-256, taken to be free of collisions.
  datatype FindingId = Digest(text: string)

  function Identity(f: Finding): FindingId { Digest(Encoding(f)) }

  predicate NulFree(s: string) { forall i | 0 <= i < |s| :: s[i] != NUL }

  predicate SameContent(f: Finding, g: Finding) {
    && f.index == g.index && Text(f.title) == Text(g.title)
    && Text(f.file) == Text(g.file) && Text(f.body) == Text(g.body)
  }

  predicate PlainNames(f: Finding) { NulFree(Text(f.title)) && NulFree(Text(f.file)) }

  lemma NulEnds(a: string, b: string, s: string, t: string)
    requires NulFree(a) && NulFree(b) && Ended(a) + s == Ended(b) + t
    ensures a == b && s == t
  {
    var whole := Ended(a) + s;
    assert whole[|a|] == NUL && whole[|b|] == NUL;
    assert forall i | 0 <= i < |a| :: whole[i] == a[i];
    assert forall i | 0 <= i < |b| :: whole[i] == b[i];
    assert |a| == |b|;
    assert a == whole[..|a|] && b == whole[..|b|];
    assert s == whole[|a|+1..] && t == whole[|b|+1..];
  }

  lemma {:induction false} NatTextIsInjective(m: nat, n: nat)
    requires NatText(m) == NatText(n)
    ensures m == n
  {
    var s, t := NatText(m), NatText(n);
    assert s[|s|-1] == '0' + (m % 10) as char && t[|t|-1] == '0' + (n % 10) as char;
    if m >= 10 { assert s[..|s|-1] == NatText(m / 10) != ""; }
    if n >= 10 { assert t[..|t|-1] == NatText(n / 10) != ""; }
    if m >= 10 && n >= 10 { NatTextIsInjective(m / 10, n / 10); }
  }

  lemma IntTextIsInjective(m: int, n: int)
    requires IntText(m) == IntText(n)
    ensures m == n
  {
    var s, t := IntText(m), IntText(n);
    assert m < 0 <==> s[0] == '-';
    assert n < 0 <==> t[0] == '-';
    if m < 0 {
      assert s[1..] == NatText(-m) && t[1..] == NatText(-n);
      NatTextIsInjective(-m, -n);
    } else {
      NatTextIsInjective(m, n);
    }
  }

  lemma IntTextIsNulFree(n: int)
    ensures NulFree(IntText(n))
  {
    if n < 0 { assert NulFree(NatText(-n)); }
  }

  // Findings without NULs in title and file have one identity exactly when their contents agree.
  lemma IdentityIsInjective(f: Finding, g: Finding)
    requires PlainNames(f) && PlainNames(g)
    ensures Identity(f) == Identity(g) <==> SameContent(f, g)
  {
    if Identity(f) == Identity(g) {
      var restF := Ended(Text(f.file)) + Ended(Text(f.body));
      var restG := Ended(Text(g.file)) + Ended(Text(g.body));
      IntTextIsNulFree(f.index);
      IntTextIsNulFree(g.index);
      NulEnds(IntText(f.index), IntText(g.index), Ended(Text(f.title)) + restF, Ended(Text(g.title)) + restG);
      NulEnds(Text(f.title), Text(g.title), restF, restG);
      NulEnds(Text(f.file), Text(g.file), Ended(Text(f.body)), Ended(Text(g.body)));
      assert Text(f.body) == Ended(Text(f.body))[..|Text(f.body)|];
      IntTextIsInjective(f.index, g.index);
    }
  }

  // A NUL in a title can move the border between title and file.
  lemma NulMovesTheBorder()
    ensures var f := Finding(1, Some(['a', NUL, 'b']), Some(['c']), None);
            var g := Finding(1, Some(['a']), Some(['b', NUL, 'c']), None);
      Identity(f) == Identity(g) && !SameContent(f, g)
  {
    var f := Finding(1, Some(['a', NUL, 'b']), Some(['c']), None);
    var g := Finding(1, Some(['a']), Some(['b', NUL, 'c']), None);
    assert Ended(Text(f.title)) + Ended(Text(f.file)) == Ended(Text(g.title)) + Ended(Text(g.file));
    assert Encoding(f) == Ended(IntText(1)) + ((Ended(Text(f.title)) + Ended(Text(f.file))) + Ended(Text(f.body)));
    assert Encoding(g) == Ended(IntText(1)) + ((Ended(Text(g.title)) + Ended(Text(g.file))) + Ended(Text(g.body)));
  }

  // ---- when two findings share an identity ----

  predicate NulFreeThroughout(f: Finding) { NulFree(Text(f.title)) && NulFree(Text(f.file)) && NulFree(Text(f.body)) }

  // A finding shares its identity with another exactly when its title, file or body holds a NUL.
  lemma SharedIff(f: Finding)
    ensures (exists g :: Identity(g) == Identity(f) && !SameContent(f, g)) <==> !NulFreeThroughout(f)
  {
    if NulFreeThroughout(f) {
      forall g | Identity(g) == Identity(f) ensures SameContent(f, g) { OnlyItself(f, g); }
    } else {
      var g := Twin(f);
      assert Identity(g) == Identity(f) && !SameContent(f, g);
    }
  }

  function Nuls(s: string): nat { if s == "" then 0 else (if s[0] == NUL then 1 else 0) + Nuls(s[1..]) }

  lemma {:induction false} NulsOfBoth(s: string, t: string)
    ensures Nuls(s + t) == Nuls(s) + Nuls(t)
  {
    if s == "" {
      assert s + t == t;
    } else {
      assert (s + t)[1..] == s[1..] + t;
      NulsOfBoth(s[1..], t);
    }
  }

  lemma {:induction false} NoNuls(s: string)
    ensures Nuls(s) == 0 <==> NulFree(s)
  {
    if s != "" {
      NoNuls(s[1..]);
      assert forall i | 0 < i < |s| :: s[i] == s[1..][i-1];
      assert NulFree(s) ==> forall i | 0 <= i < |s[1..]| :: s[1..][i] == s[i+1];
    }
  }

  lemma NulsOfEnded(s: string)
    ensures Nuls(Ended(s)) == Nuls(s) + 1
  {
    NulsOfBoth(s, [NUL]);
    assert [NUL][1..] == "";
  }

  lemma NulsOfEncoding(f: Finding)
    ensures Nuls(Encoding(f)) == Nuls(Text(f.title)) + Nuls(Text(f.file)) + Nuls(Text(f.body)) + 4
  {
    var t, u, w := Ended(Text(f.title)), Ended(Text(f.file)), Ended(Text(f.body));
    IntTextIsNulFree(f.index);
    NoNuls(IntText(f.index));
    NulsOfEnded(IntText(f.index));
    NulsOfEnded(Text(f.title));
    NulsOfEnded(Text(f.file));
    NulsOfEnded(Text(f.body));
    NulsOfBoth(u, w);
    NulsOfBoth(t, u + w);
    NulsOfBoth(Ended(IntText(f.index)), t + (u + w));
  }

  // The four NULs of a finding without others leave no room for one in the other finding.
  lemma OnlyItself(f: Finding, g: Finding)
    requires NulFreeThroughout(f) && Identity(g) == Identity(f)
    ensures SameContent(f, g)
  {
    NulsOfEncoding(f);
    NulsOfEncoding(g);
    NoNuls(Text(f.title));
    NoNuls(Text(f.file));
    NoNuls(Text(f.body));
    NoNuls(Text(g.title));
    NoNuls(Text(g.file));
    IdentityIsInjective(f, g);
  }

  function FirstNul(s: string): (i: nat)
    requires !NulFree(s)
    ensures i < |s| && s[i] == NUL
  {
    if s[0] == NUL then 0
    else
      assert s[1..] != [] && !NulFree(s[1..]) by {
        var i :| 0 <= i < |s| && s[i] == NUL;
        assert s[1..][i-1] == NUL;
      }
      1 + FirstNul(s[1..])
  }

  // The border between two parts moved: the first ends at its NUL, or takes in the second up to the
  // NUL there.
  function Shifted(a: string, b: string): (r: (string, string))
    requires !NulFree(a) || !NulFree(b)
    ensures Ended(a) + Ended(b) == Ended(r.0) + Ended(r.1)
    ensures r.0 != a
  {
    if !NulFree(a) then
      var i := FirstNul(a);
      assert a == a[..i] + [NUL] + a[i+1..];
      assert Ended(a) + Ended(b) == Ended(a[..i]) + Ended(a[i+1..] + [NUL] + b);
      (a[..i], a[i+1..] + [NUL] + b)
    else
      var i := FirstNul(b);
      assert b == b[..i] + [NUL] + b[i+1..];
      assert Ended(a) + Ended(b) == Ended(a + [NUL] + b[..i]) + Ended(b[i+1..]);
      (a + [NUL] + b[..i], b[i+1..])
  }

  lemma Twin(f: Finding) returns (g: Finding)
    requires !NulFreeThroughout(f)
    ensures Identity(g) == Identity(f) && !SameContent(f, g)
  {
    var t, u, w := Text(f.title), Text(f.file), Text(f.body);
    if !NulFree(t) || !NulFree(u) {
      var r := Shifted(t, u);
      g := f.(title := Some(r.0), file := Some(r.1));
      assert Ended(t) + (Ended(u) + Ended(w)) == (Ended(t) + Ended(u)) + Ended(w);
      assert Ended(r.0) + (Ended(r.1) + Ended(w)) == (Ended(r.0) + Ended(r.1)) + Ended(w);
    } else {
      var r := Shifted(u, w);
      g := f.(file := Some(r.0), body := Some(r.1));
    }
  }

  // ---- runs ----

  // What the agent and the store did when a finding was handed to them.
  datatype Outcome =
    | Failed                                  // the agent raised
    | Unsaved                                 // the agent finished, writing the checkpoint raised
    | Finished(isDict: bool, stored: bool)    // the record may not be a dict, or be too large to store

  // A stored record; only a dict carries the identity of its finding.
  datatype Record = Record(id: Option<FindingId>)

  // A listed finding, what happens if it is handed over, and whether its checkpoint can be read.
  datatype Job = Job(finding: Finding, outcome: Outcome, readable: bool)

  datatype Pass = Pass(jobs: seq<Job>, resume: bool, resetFirst: bool)

  // The checkpoints, and every finding the agent has finished, in order.
  datatype Memory = Memory(ckpts: map<string, Record>, done: seq<Finding>)

  function StepOf(f: Finding): string { "remediate_" + IntText(f.index) }

  predicate Skips(m: Memory, j: Job, resume: bool) {
    resume && j.readable && StepOf(j.finding) in m.ckpts
    && m.ckpts[StepOf(j.finding)].id == Some(Identity(j.finding))
  }

  function Handled(m: Memory, j: Job, resume: bool): Memory {
    if Skips(m, j, resume) || j.outcome.Failed? then m
    else Memory(
      if j.outcome.Finished? && j.outcome.stored then
        m.ckpts[StepOf(j.finding) := Record(if j.outcome.isDict then Some(Identity(j.finding)) else None)]
      else m.ckpts,
      m.done + [j.finding])
  }

  // The job counts as processed.
  predicate Counts(m: Memory, j: Job, resume: bool) { Skips(m, j, resume) || j.outcome.Finished? }

  function After(m: Memory, jobs: seq<Job>, resume: bool): Memory {
    if jobs == [] then m else Handled(After(m, jobs[..|jobs|-1], resume), jobs[|jobs|-1], resume)
  }

  function Processed(m: Memory, jobs: seq<Job>, resume: bool): (n: nat)
    ensures n <= |jobs|
  {
    if jobs == [] then 0
    else
      var init := jobs[..|jobs|-1];
      Processed(m, init, resume) + if Counts(After(m, init, resume), jobs[|jobs|-1], resume) then 1 else 0
  }

  function Exit(m: Memory, jobs: seq<Job>, resume: bool): nat {
    if Processed(m, jobs, resume) == |jobs| then 0 else 1
  }

  predicate CountsAt(m: Memory, jobs: seq<Job>, resume: bool, i: nat)
    requires i < |jobs|
  {
    Counts(After(m, jobs[..i], resume), jobs[i], resume)
  }

  ghost predicate AllCount(m: Memory, jobs: seq<Job>, resume: bool, n: nat)
    requires n <= |jobs|
  {
    forall i | 0 <= i < n :: CountsAt(m, jobs, resume, i)
  }

  // Exit code 0 exactly when every job was skipped under its own identity or finished by the agent.
  lemma ExitZeroIff(m: Memory, jobs: seq<Job>, resume: bool)
    ensures Exit(m, jobs, resume) == 0 <==> AllCount(m, jobs, resume, |jobs|)
  {
    CountedIff(m, jobs, resume, |jobs|);
    assert jobs[..|jobs|] == jobs;
  }

  lemma {:induction false} CountedIff(
      m: Memory, jobs: seq<Job>, resume: bool, n: nat)
    requires n <= |jobs|
    ensures Processed(m, jobs[..n], resume) == n <==> AllCount(m, jobs, resume, n)
    decreases n
  {
    if n > 0 {
      CountedIff(m, jobs, resume, n - 1);
      ProcessedNext(m, jobs, resume, n - 1);
    }
  }

  lemma ProcessedNext(m: Memory, jobs: seq<Job>, resume: bool, i: nat)
    requires i < |jobs|
    ensures Processed(m, jobs[..i+1], resume) == Processed(m, jobs[..i], resume) +
        if CountsAt(m, jobs, resume, i) then 1 else 0
    ensures After(m, jobs[..i+1], resume) == Handled(After(m, jobs[..i], resume), jobs[i], resume)
  {
    assert jobs[..i+1][..i] == jobs[..i];
  }

  // The finding, under its own identity, is among those the agent has finished.
  ghost predicate Remediated(f: Finding, done: seq<Finding>) {
    exists k :: 0 <= k < |done| && Identity(done[k]) == Identity(f)
  }

  ghost predicate IsDone(id: FindingId, done: seq<Finding>) { exists k :: 0 <= k < |done| && Identity(done[k]) == id }

  // Every record that names a finding names one that the agent has finished.
  ghost predicate Honest(m: Memory) {
    forall s | s in m.ckpts && m.ckpts[s].id.Some? :: IsDone(m.ckpts[s].id.value, m.done)
  }

  lemma DoneStays(id: FindingId, done: seq<Finding>, more: seq<Finding>)
    requires IsDone(id, done) && done <= more
    ensures IsDone(id, more)
  {
    var k :| 0 <= k < |done| && Identity(done[k]) == id;
    assert more[k] == done[k];
  }

  lemma HandledIsHonest(m: Memory, j: Job, resume: bool)
    requires Honest(m)
    ensures var u := Handled(m, j, resume);
      && Honest(u) && m.done <= u.done
      && (Counts(m, j, resume) ==> IsDone(Identity(j.finding), u.done))
  {
    var u := Handled(m, j, resume);
    if u != m {
      assert u.done[|m.done|] == j.finding;
      forall s | s in u.ckpts && u.ckpts[s].id.Some? ensures IsDone(u.ckpts[s].id.value, u.done) {
        if s in m.ckpts && u.ckpts[s] == m.ckpts[s] { DoneStays(m.ckpts[s].id.value, m.done, u.done); }
      }
    }
  }

  // A resumed run skips only findings that were remediated, under their own identity, before.
  lemma SkippedWasRemediated(m: Memory, j: Job, resume: bool)
    requires Honest(m) && Skips(m, j, resume)
    ensures Remediated(j.finding, m.done)
  {
    assert IsDone(Identity(j.finding), m.done);
  }

  ghost predicate AllRemediated(jobs: seq<Job>, done: seq<Finding>) {
    forall i | 0 <= i < |jobs| :: IsDone(Identity(jobs[i].finding), done)
  }

  lemma {:induction false} AfterIsHonest(m: Memory, jobs: seq<Job>, resume: bool)
    requires Honest(m)
    ensures Honest(After(m, jobs, resume))
  {
    if jobs != [] {
      AfterIsHonest(m, jobs[..|jobs|-1], resume);
      HandledIsHonest(After(m, jobs[..|jobs|-1], resume), jobs[|jobs|-1], resume);
    }
  }

  lemma {:induction false} DoneGrows(
      m: Memory, jobs: seq<Job>, resume: bool, n: nat)
    requires n <= |jobs|
    ensures After(m, jobs[..n], resume).done <= After(m, jobs, resume).done
    decreases |jobs|
  {
    if n == |jobs| {
      assert jobs[..n] == jobs;
    } else {
      assert jobs[..|jobs|-1][..n] == jobs[..n];
      DoneGrows(m, jobs[..|jobs|-1], resume, n);
    }
  }

  lemma CountedIsDone(m: Memory, jobs: seq<Job>, resume: bool, i: nat)
    requires Honest(m) && i < |jobs| && CountsAt(m, jobs, resume, i)
    ensures IsDone(Identity(jobs[i].finding), After(m, jobs, resume).done)
  {
    AfterIsHonest(m, jobs[..i], resume);
    HandledIsHonest(After(m, jobs[..i], resume), jobs[i], resume);
    ProcessedNext(m, jobs, resume, i);
    DoneGrows(m, jobs, resume, i + 1);
    DoneStays(Identity(jobs[i].finding), After(m, jobs[..i+1], resume).done, After(m, jobs, resume).done);
  }

  // Exit code 0 only if every listed finding was remediated under its own identity, now or earlier.
  lemma ExitZeroMeansRemediated(m: Memory, jobs: seq<Job>, resume: bool)
    requires Honest(m) && Exit(m, jobs, resume) == 0
    ensures AllRemediated(jobs, After(m, jobs, resume).done)
  {
    ExitZeroIff(m, jobs, resume);
    forall i | 0 <= i < |jobs| ensures IsDone(Identity(jobs[i].finding), After(m, jobs, resume).done) {
      assert CountsAt(m, jobs, resume, i);
      CountedIsDone(m, jobs, resume, i);
    }
  }

  // What a run adds to the finished findings are listed ones that the agent was handed and finished.
  lemma {:induction false} NewlyDone(
      m: Memory, jobs: seq<Job>, resume: bool, k: nat) returns (i: nat)
    requires |m.done| <= k < |After(m, jobs, resume).done|
    ensures i < |jobs| && After(m, jobs, resume).done[k] == jobs[i].finding
    ensures !jobs[i].outcome.Failed? && !Skips(After(m, jobs[..i], resume), jobs[i], resume)
  {
    var init := jobs[..|jobs|-1];
    if k < |After(m, init, resume).done| {
      i := NewlyDone(m, init, resume, k);
      assert init[..i] == jobs[..i];
    } else {
      i := |jobs| - 1;
    }
  }

  // With plain names the finding that was done is this very one.
  lemma RemediatedItself(f: Finding, done: seq<Finding>)
    requires PlainNames(f) && forall k | 0 <= k < |done| :: PlainNames(done[k])
    ensures Remediated(f, done) <==> exists k :: 0 <= k < |done| && SameContent(done[k], f)
  {
    forall k | 0 <= k < |done| ensures Identity(done[k]) == Identity(f) <==> SameContent(done[k], f) {
      IdentityIsInjective(done[k], f);
    }
  }

  // ---- many runs ----

  const NOTHING := Memory(map[], [])

  // A fresh scan before a run drops every checkpoint.
  function Begun(m: Memory, pass: Pass): Memory { if pass.resetFirst then m.(ckpts := map[]) else m }

  function AfterPasses(passes: seq<Pass>): Memory {
    if passes == [] then NOTHING
    else
      var last := passes[|passes|-1];
      After(Begun(AfterPasses(passes[..|passes|-1]), last), last.jobs, last.resume)
  }

  function ExitOf(passes: seq<Pass>, i: nat): nat
    requires i < |passes|
  {
    Exit(Begun(AfterPasses(passes[..i]), passes[i]), passes[i].jobs, passes[i].resume)
  }

  lemma {:induction false} PassesAreHonest(passes: seq<Pass>)
    ensures Honest(AfterPasses(passes))
  {
    if passes != [] {
      var last := passes[|passes|-1];
      PassesAreHonest(passes[..|passes|-1]);
      AfterIsHonest(Begun(AfterPasses(passes[..|passes|-1]), last), last.jobs, last.resume);
    }
  }

  // Over any sequence of runs, with findings reordered, edited or replaced between them: a run that
  // exits 0 lists only findings remediated, under their own identity, by then.
  lemma ZeroMeansAllRemediated(passes: seq<Pass>, i: nat)
    requires i < |passes| && ExitOf(passes, i) == 0
    ensures AllRemediated(passes[i].jobs, AfterPasses(passes[..i+1]).done)
  {
    PassNext(passes, i);
    ExitZeroMeansRemediated(Begun(AfterPasses(passes[..i]), passes[i]), passes[i].jobs, passes[i].resume);
  }

  // Every finding remediated is one that some run listed and the agent finished.
  lemma {:induction false} DoneByThen(
      passes: seq<Pass>, k: nat) returns (i: nat, j: nat)
    requires k < |AfterPasses(passes).done|
    ensures i < |passes| && j < |passes[i].jobs|
    ensures AfterPasses(passes).done[k] == passes[i].jobs[j].finding && !passes[i].jobs[j].outcome.Failed?
  {
    var init, last := passes[..|passes|-1], passes[|passes|-1];
    var m := Begun(AfterPasses(init), last);
    if k < |m.done| {
      i, j := DoneByThen(init, k);
      DoneGrows(m, last.jobs, last.resume, 0);
      assert last.jobs[..0] == [];
    } else {
      i := |passes| - 1;
      j := NewlyDone(m, last.jobs, last.resume, k);
    }
  }

  // ---- the runner ----

  class Runner {
    var ckpts: map<string, Record>
    ghost var done: seq<Finding>    // every finding the agent has finished, in order

    constructor ()
      ensures Mem() == NOTHING
    {
      ckpts, done := map[], [];
    }

    ghost function Mem(): Memory
      reads this
    {
      Memory(ckpts, done)
    }

    method ResetRun()
      modifies this`ckpts
      ensures ckpts == map[]
    {
      ckpts := map[];
    }

    method RemediateOne(j: Job, resume: bool) returns (processed: bool)
      modifies this
      ensures Mem() == Handled(old(Mem()), j, resume) && processed == Counts(old(Mem()), j, resume)
    {
      var step, id := StepOf(j.finding), Identity(j.finding);
      if resume && j.readable && step in ckpts && ckpts[step].id == Some(id) { return true; }
      if j.outcome.Failed? { return false; }
      done := done + [j.finding];
      if j.outcome.Unsaved? { return false; }
      if j.outcome.stored {
        ckpts := ckpts[step := Record(if j.outcome.isDict then Some(id) else None)];
      }
      return true;
    }

    // Exit code 0 when every finding counts as processed, 1 otherwise.
    method ProcessFindings(jobs: seq<Job>, resume: bool) returns (exit: nat)
      modifies this
      ensures Mem() == After(old(Mem()), jobs, resume) && exit == Exit(old(Mem()), jobs, resume)
      ensures Honest(old(Mem())) ==> Honest(Mem()) && (exit == 0 ==> AllRemediated(jobs, done))
    {
      var fixed := 0;
      ghost var m := Mem();
      for i := 0 to |jobs|
        invariant Mem() == After(m, jobs[..i], resume) && fixed == Processed(m, jobs[..i], resume)
      {
        ProcessedNext(m, jobs, resume, i);
        var processed := RemediateOne(jobs[i], resume);
        if processed { fixed := fixed + 1; }
      }
      assert jobs[..|jobs|] == jobs;
      if Honest(m) {
        AfterIsHonest(m, jobs, resume);
        if Exit(m, jobs, resume) == 0 { ExitZeroMeansRemediated(m, jobs, resume); }
      }
      exit := if fixed == |jobs| then 0 else 1;
    }
  }

  lemma PassNext(passes: seq<Pass>, i: nat)
    requires i < |passes|
    ensures var m := Begun(AfterPasses(passes[..i]), passes[i]);
      AfterPasses(passes[..i+1]) == After(m, passes[i].jobs, passes[i].resume) && Honest(m)
  {
    assert passes[..i+1][..i] == passes[..i];
    PassesAreHonest(passes[..i]);
  }

  method RunAll(runner: Runner, passes: seq<Pass>) returns (exits: seq<nat>)
    requires runner.Mem() == NOTHING
    modifies runner
    ensures runner.Mem() == AfterPasses(passes)
    ensures |exits| == |passes| && forall i | 0 <= i < |passes| :: exits[i] == ExitOf(passes, i)
  {
    exits := [];
    for i := 0 to |passes|
      invariant runner.Mem() == AfterPasses(passes[..i])
      invariant |exits| == i && forall k | 0 <= k < i :: exits[k] == ExitOf(passes, k)
    {
      PassNext(passes, i);
      if passes[i].resetFirst { runner.ResetRun(); }
      var exit := runner.ProcessFindings(passes[i].jobs, passes[i].resume);
      exits := exits + [exit];
    }
    assert passes[..|passes|] == passes;
  }
}
