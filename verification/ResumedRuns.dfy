// Over any remediation runs: a finding finished and recorded once is skipped from then on, and only
// such a finding is.

module ResumedRuns {
  import opened Common
  import opened PyText
  import opened Remediation

  // The memory when run c comes to its job d.
  function MemAt(passes: seq<Pass>, c: nat, d: nat): Memory
    requires c < |passes| && d <= |passes[c].jobs|
  {
    After(Begun(AfterPasses(passes[..c]), passes[c]), passes[c].jobs[..d], passes[c].resume)
  }

  lemma NextJob(passes: seq<Pass>, c: nat, d: nat)
    requires c < |passes| && d < |passes[c].jobs|
    ensures MemAt(passes, c, d + 1) == Handled(MemAt(passes, c, d), passes[c].jobs[d], passes[c].resume)
  {
    assert passes[c].jobs[..d+1][..d] == passes[c].jobs[..d];
  }

  lemma NextPass(passes: seq<Pass>, c: nat)
    requires c + 1 < |passes|
    ensures MemAt(passes, c + 1, 0) == Begun(MemAt(passes, c, |passes[c].jobs|), passes[c+1])
  {
    assert passes[..c+1][..c] == passes[..c] && passes[c].jobs[..|passes[c].jobs|] == passes[c].jobs;
  }

  // The checkpoint under the finding's number is that of this very finding.
  predicate Recorded(m: Memory, f: Finding) {
    var step := "remediate_" + IntText(f.index);
    step in m.ckpts && m.ckpts[step].id == Some(Identity(f))
  }

  // The job writes no other record under the finding's number.
  predicate Harmless(j: Job, f: Finding) {
    || j.finding.index != f.index || !j.outcome.Finished? || !j.outcome.stored
    || (j.outcome.isDict && Identity(j.finding) == Identity(f))
  }

  lemma StepsDiffer(f: Finding, g: Finding)
    requires f.index != g.index
    ensures StepOf(f) != StepOf(g)
  {
    if StepOf(f) == StepOf(g) {
      assert StepOf(f)[|"remediate_"|..] == IntText(f.index) && StepOf(g)[|"remediate_"|..] == IntText(g.index);
      IntTextIsInjective(f.index, g.index);
    }
  }

  lemma SameNumber(f: Finding, g: Finding)
    requires Identity(f) == Identity(g)
    ensures f.index == g.index
  {
    IntTextIsNulFree(f.index);
    IntTextIsNulFree(g.index);
    NulEnds(IntText(f.index), IntText(g.index),
            Ended(Text(f.title)) + (Ended(Text(f.file)) + Ended(Text(f.body))),
            Ended(Text(g.title)) + (Ended(Text(g.file)) + Ended(Text(g.body))));
    IntTextIsInjective(f.index, g.index);
  }

  lemma StaysRecorded(m: Memory, j: Job, resume: bool, f: Finding)
    requires Recorded(m, f) && Harmless(j, f)
    ensures Recorded(Handled(m, j, resume), f)
  {
    if j.finding.index != f.index { StepsDiffer(j.finding, f); }
  }

  lemma BecomesRecorded(m: Memory, j: Job, resume: bool, f: Finding)
    requires j.outcome == Finished(true, true) && Identity(j.finding) == Identity(f)
    ensures Recorded(Handled(m, j, resume), f)
  {
    SameNumber(j.finding, f);
  }

  // Job (i, j) comes after job (a, b), and before (c, d).
  predicate Between(a: nat, b: nat, i: nat, j: nat, c: nat, d: nat) {
    (a < i || (a == i && b < j)) && (i < c || (i == c && j < d))
  }

  ghost predicate Untouched(passes: seq<Pass>, a: nat, b: nat, c: nat, d: nat, f: Finding) {
    && (forall i | a < i <= c && i < |passes| :: !passes[i].resetFirst)
    && (forall i: nat, j: nat | i < |passes| && j < |passes[i].jobs| && Between(a, b, i, j, c, d) ::
          Harmless(passes[i].jobs[j], f))
  }

  lemma {:induction false} RecordLasts(passes: seq<Pass>, a: nat, b: nat, c: nat, d: nat, f: Finding)
    requires a <= c < |passes| && b < |passes[a].jobs| && d <= |passes[c].jobs| && (a < c || b < d)
    requires Recorded(MemAt(passes, a, b + 1), f) && Untouched(passes, a, b, c, d, f)
    ensures Recorded(MemAt(passes, c, d), f)
    decreases c, d
  {
    if d > 0 {
      if a < c || b < d - 1 {
        assert Between(a, b, c, d - 1, c, d);
        assert Untouched(passes, a, b, c, d - 1, f);
        RecordLasts(passes, a, b, c, d - 1, f);
        NextJob(passes, c, d - 1);
        StaysRecorded(MemAt(passes, c, d - 1), passes[c].jobs[d-1], passes[c].resume, f);
      }
    } else {
      assert Untouched(passes, a, b, c - 1, |passes[c-1].jobs|, f);
      RecordLasts(passes, a, b, c - 1, |passes[c-1].jobs|, f);
      NextPass(passes, c - 1);
    }
  }

  // A finding finished with a record that was stored is skipped whenever it comes again, edited in
  // nothing, in a resumed run that can read the record: as long as no reset and no other record under
  // its number has come in between.  It counts as processed, and nothing is done.
  lemma FinishedIsSkipped(passes: seq<Pass>, a: nat, b: nat, c: nat, d: nat)
    requires a <= c < |passes| && b < |passes[a].jobs| && d < |passes[c].jobs| && (a < c || b < d)
    requires passes[a].jobs[b].outcome == Finished(true, true)
    requires passes[c].resume && passes[c].jobs[d].readable
    requires Identity(passes[a].jobs[b].finding) == Identity(passes[c].jobs[d].finding)
    requires Untouched(passes, a, b, c, d, passes[c].jobs[d].finding)
    ensures MemAt(passes, c, d + 1) == MemAt(passes, c, d)
    ensures Counts(MemAt(passes, c, d), passes[c].jobs[d], true)
  {
    var f := passes[c].jobs[d].finding;
    NextJob(passes, a, b);
    BecomesRecorded(MemAt(passes, a, b), passes[a].jobs[b], passes[a].resume, f);
    RecordLasts(passes, a, b, c, d, f);
    NextJob(passes, c, d);
  }

  lemma NewRecord(m: Memory, j: Job, resume: bool, f: Finding)
    requires Recorded(Handled(m, j, resume), f) && !Recorded(m, f)
    ensures j.outcome == Finished(true, true) && Identity(j.finding) == Identity(f)
  {
    if j.finding.index != f.index { StepsDiffer(j.finding, f); }
  }

  lemma FirstJob(passes: seq<Pass>, c: nat, f: Finding)
    requires c < |passes| && Recorded(MemAt(passes, c, 0), f)
    ensures c > 0 && !passes[c].resetFirst && Recorded(MemAt(passes, c - 1, |passes[c-1].jobs|), f)
  {
    assert passes[c].jobs[..0] == [] && passes[..0] == [];
    if c > 0 { NextPass(passes, c - 1); }
  }

  // A record comes from a finding finished before, and stored, with no reset since.
  lemma {:induction false} RecordHasSource(passes: seq<Pass>, c: nat, d: nat, f: Finding) returns (a: nat, b: nat)
    requires c < |passes| && d <= |passes[c].jobs| && Recorded(MemAt(passes, c, d), f)
    ensures a <= c && b < |passes[a].jobs| && (a < c || b < d)
    ensures passes[a].jobs[b].outcome == Finished(true, true) && Identity(passes[a].jobs[b].finding) == Identity(f)
    ensures forall i | a < i <= c :: !passes[i].resetFirst
    decreases c, d
  {
    if d == 0 {
      FirstJob(passes, c, f);
      a, b := RecordHasSource(passes, c - 1, |passes[c-1].jobs|, f);
    } else if Recorded(MemAt(passes, c, d - 1), f) {
      a, b := RecordHasSource(passes, c, d - 1, f);
    } else {
      NextJob(passes, c, d - 1);
      NewRecord(MemAt(passes, c, d - 1), passes[c].jobs[d-1], passes[c].resume, f);
      a, b := c, d - 1;
    }
  }

  // Only such a finding is skipped: one that counts as processed although the agent fails on it.
  lemma SkippedHasSource(passes: seq<Pass>, c: nat, d: nat) returns (a: nat, b: nat)
    requires c < |passes| && d < |passes[c].jobs|
    requires passes[c].jobs[d].outcome.Failed? && Counts(MemAt(passes, c, d), passes[c].jobs[d], passes[c].resume)
    ensures a <= c && b < |passes[a].jobs| && (a < c || b < d)
    ensures passes[a].jobs[b].outcome == Finished(true, true)
    ensures Identity(passes[a].jobs[b].finding) == Identity(passes[c].jobs[d].finding)
    ensures passes[c].resume && passes[c].jobs[d].readable && forall i | a < i <= c :: !passes[i].resetFirst
  {
    a, b := RecordHasSource(passes, c, d, passes[c].jobs[d].finding);
  }
}
