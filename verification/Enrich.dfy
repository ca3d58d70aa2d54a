// Annotating a findings report in place: CVSS base scores and context severities, then offensive
// priorities.  What the regular expressions say about a line is its kind.

module Enrich {
  import opened Common
  import opened ReportFile

  datatype Kind =
    | Header                       // "### 1. [HIGH] title"
    | Boundary                     // "## Dropped Findings", "## Exploit Chains", "## Appendix"
    | Cvss(vector: string)         // "**CVSS ...** `vector` ..."
    | AltCvss(vector: string)      // "CVSS 3.1 ... vector"
    | Vsvs                         // "**VulContextSeverity:** ..."
    | Offensive                    // "**OffensivePriority:** ..."
    | Blank
    | Other

  datatype Finding = Finding(priority: string, reason: string)

  datatype Rules = Rules(
    kind: string -> Kind,
    isScored: string -> bool,                    // a base score stands on the line
    base: string -> Option<string>,              // vector -> base score
    severity: string -> Option<string>,          // vector -> context severity; none without an application
    vsvsLine: (bool, string) -> string,          // bold form?, severity
    offensiveLine: (bool, Finding) -> string,    // bold form?, finding
    judge: (seq<string>, nat) -> Finding)        // the k-th finding parsed from the lines, with its priority

  // The lines written are of the kinds they are meant to be; a score is seen again.
  ghost predicate Sound(e: Rules) {
    && e.kind("") == Blank
    && (forall l | e.kind(l).Cvss? && e.base(e.kind(l).vector).Some? ::
         e.kind(Scored(l, e.base(e.kind(l).vector).value)) == e.kind(l)
             && e.isScored(Scored(l, e.base(e.kind(l).vector).value)))
    && (forall bold, s :: e.kind(e.vsvsLine(bold, s)) == Vsvs)
    && (forall bold, f :: e.kind(e.offensiveLine(bold, f)) == Offensive)
    && (forall lines, k :: e.judge(lines, k).priority != "")
  }

  function Scored(l: string, score: string): string { l + " - **" + score + "**" }

  // The first line that is not blank, or nothing at all.
  function Next(e: Rules, lines: seq<string>): string {
    if lines == [] then "" else if e.kind(lines[0]) == Blank then Next(e, lines[1..]) else lines[0]
  }

  // ---- base scores and context severities ----

  function VectorOf(k: Kind): Option<string> {
    match k case Cvss(v) => Some(v) case AltCvss(v) => Some(v) case _ => None
  }

  predicate NeedsScore(e: Rules, l: string) {
    e.kind(l).Cvss? && e.base(e.kind(l).vector).Some? && !e.isScored(l)
  }

  function WithScore(e: Rules, l: string): string {
    if NeedsScore(e, l) then Scored(l, e.base(e.kind(l).vector).value) else l
  }

  // The severity line that belongs under a line, if one does.
  function SeverityLine(e: Rules, l: string): Option<string> {
    match VectorOf(e.kind(l))
    case None => None
    case Some(v) => (match e.severity(v) case None => None case Some(s) => Some(e.vsvsLine(e.kind(l).Cvss?, s)))
  }

  // The lines after the blank ones, and after the first that is not blank.
  function Beyond(e: Rules, lines: seq<string>): (r: seq<string>)
    ensures |r| <= |lines|
  {
    if lines == [] then [] else if e.kind(lines[0]) == Blank then Beyond(e, lines[1..]) else lines[1..]
  }

  function Rated(e: Rules, lines: seq<string>): seq<string>
    decreases |lines|
  {
    if lines == [] then []
    else if e.kind(lines[0]) == Boundary then lines
    else
      var l := WithScore(e, lines[0]);
      match SeverityLine(e, lines[0])
      case None => [l] + Rated(e, lines[1..])
      case Some(s) =>
        if e.kind(Next(e, lines[1..])) == Vsvs then [l, "", s] + Rated(e, Beyond(e, lines[1..]))
        else [l, "", s] + Rated(e, lines[1..])
  }

  // The severity line is already there, below any number of blank lines.
  predicate HasSeverity(e: Rules, l: string, rest: seq<string>) {
    match SeverityLine(e, l)
    case None => true
    case Some(s) => e.kind(Next(e, rest)) == Vsvs && Next(e, rest) == s
  }

  // No line is left to score or to rate: the pass reports no change.
  predicate Settled(e: Rules, lines: seq<string>) {
    lines == [] || e.kind(lines[0]) == Boundary
    || (!NeedsScore(e, lines[0]) && HasSeverity(e, lines[0], lines[1..]) && Settled(e, lines[1..]))
  }

  // ---- offensive priorities ----

  predicate Bold(l: string) { "**" <= l }

  // Where a finding's priority goes: under its severity, or under a CVSS line without one.
  predicate AtInsert(e: Rules, l: string, rest: seq<string>) {
    e.kind(l) == Vsvs || (VectorOf(e.kind(l)).Some? && e.kind(Next(e, rest)) != Vsvs)
  }

  function Headers(e: Rules, lines: seq<string>): nat {
    if lines == [] || e.kind(lines[0]) == Boundary then 0
    else (if e.kind(lines[0]) == Header then 1 else 0) + Headers(e, lines[1..])
  }

  // `at` findings have begun, and the last of them is `served` or not.
  function Ranked(e: Rules, lines: seq<string>, fs: seq<Finding>, at: nat, served: bool): seq<string> {
    if lines == [] then []
    else if e.kind(lines[0]) == Boundary then lines
    else if e.kind(lines[0]) == Header then [lines[0]] + Ranked(e, lines[1..], fs, at + 1, false)
    else if at == 0 || at > |fs| || served || !AtInsert(e, lines[0], lines[1..]) then
      [lines[0]] + Ranked(e, lines[1..], fs, at, served)
    else if e.kind(Next(e, lines[1..])) == Offensive || fs[at-1].priority == "" then
      [lines[0]] + Ranked(e, lines[1..], fs, at, true)
    else
      [lines[0], "", e.offensiveLine(Bold(lines[0]), fs[at-1])] + Ranked(e, lines[1..], fs, at, true)
  }

  // Each finding has its priority line, or no place for one, or no priority: no change.
  predicate Served(e: Rules, lines: seq<string>, fs: seq<Finding>, at: nat, served: bool) {
    if lines == [] || e.kind(lines[0]) == Boundary then true
    else if e.kind(lines[0]) == Header then Served(e, lines[1..], fs, at + 1, false)
    else if at == 0 || at > |fs| || served || !AtInsert(e, lines[0], lines[1..]) then
        Served(e, lines[1..], fs, at, served)
    else (e.kind(Next(e, lines[1..])) == Offensive || fs[at-1].priority == "") && Served(e, lines[1..], fs, at, true)
  }

  // ---- each pass is settled by one run ----

  lemma NextOfMore(e: Rules, l: string, s: string, rest: seq<string>)
    requires Sound(e) && e.kind(s) != Blank
    ensures Next(e, ["", s] + rest) == s
    ensures ([l, "", s] + rest)[0] == l && ([l, "", s] + rest)[1..] == ["", s] + rest
    ensures (["", s] + rest)[0] == "" && (["", s] + rest)[1..] == [s] + rest
    ensures ([s] + rest)[0] == s && ([s] + rest)[1..] == rest
  {
    assert (["", s] + rest)[1..] == [s] + rest;
  }

  lemma SeverityStands(e: Rules, l: string, s: string, rest: seq<string>)
    requires Sound(e) && SeverityLine(e, l) == Some(s) && !NeedsScore(e, l) && Settled(e, rest)
    ensures Settled(e, [l, "", s] + rest)
  {
    NextOfMore(e, l, s, rest);
    assert Settled(e, [s] + rest);
    assert Settled(e, ["", s] + rest);
  }

  lemma ScoredOnce(e: Rules, l: string)
    requires Sound(e)
    ensures !NeedsScore(e, WithScore(e, l)) && e.kind(WithScore(e, l)) == e.kind(l)
    ensures SeverityLine(e, WithScore(e, l)) == SeverityLine(e, l)
  {
  }

  // A rated report needs no more rating.
  lemma {:induction false} RatedIsSettled(e: Rules, lines: seq<string>)
    requires Sound(e)
    ensures Settled(e, Rated(e, lines))
    decreases |lines|
  {
    if lines != [] && e.kind(lines[0]) != Boundary {
      var l := WithScore(e, lines[0]);
      ScoredOnce(e, lines[0]);
      match SeverityLine(e, lines[0])
      case None =>
        RatedIsSettled(e, lines[1..]);
        assert ([l] + Rated(e, lines[1..]))[1..] == Rated(e, lines[1..]);
      case Some(s) =>
        var rest := if e.kind(Next(e, lines[1..])) == Vsvs then Beyond(e, lines[1..]) else lines[1..];
        RatedIsSettled(e, rest);
        SeverityStands(e, l, s, Rated(e, rest));
    }
  }

  // Priorities are put below lines with text, so what follows a line stays what it was.
  lemma {:induction false} NextStays(
      e: Rules, lines: seq<string>, fs: seq<Finding>, at: nat, served: bool)
    requires Sound(e)
    ensures Next(e, Ranked(e, lines, fs, at, served)) == Next(e, lines)
  {
    if lines != [] && e.kind(lines[0]) == Blank {
      NextStays(e, lines[1..], fs, at, served);
      assert Ranked(e, lines, fs, at, served)[1..] == Ranked(e, lines[1..], fs, at, served);
    }
  }

  lemma ServedOnce(
      e: Rules, l: string, s: string, rest: seq<string>, fs: seq<Finding>, at: nat)
    requires Sound(e) && e.kind(s) == Offensive && 0 < at <= |fs| && e.kind(l) != Header && e.kind(l) != Boundary
    requires e.kind(l) == Vsvs || VectorOf(e.kind(l)).Some?
    requires Served(e, rest, fs, at, true)
    ensures Served(e, [l, "", s] + rest, fs, at, false)
  {
    NextOfMore(e, l, s, rest);
    assert Served(e, [s] + rest, fs, at, true);
    assert Served(e, ["", s] + rest, fs, at, true);
  }

  // No finding without a priority has gained one.
  ghost predicate NoneNew(fs: seq<Finding>, gs: seq<Finding>) {
    |gs| == |fs| && forall k | 0 <= k < |fs| :: fs[k].priority == "" ==> gs[k].priority == ""
  }

  // A ranked report needs no more ranking, whatever is read from it of the same findings next time.
  lemma {:induction false} RankedIsServed(
      e: Rules, lines: seq<string>, fs: seq<Finding>, gs: seq<Finding>, at: nat, served: bool)
    requires Sound(e) && NoneNew(fs, gs)
    ensures Served(e, Ranked(e, lines, fs, at, served), gs, at, served)
  {
    if lines != [] && e.kind(lines[0]) != Boundary {
      var l, rest, r := lines[0], lines[1..], Ranked(e, lines, fs, at, served);
      if e.kind(l) == Header {
        RankedIsServed(e, rest, fs, gs, at + 1, false);
        assert r[1..] == Ranked(e, rest, fs, at + 1, false);
      } else if at == 0 || at > |fs| || served || !AtInsert(e, l, rest) {
        RankedIsServed(e, rest, fs, gs, at, served);
        NextStays(e, rest, fs, at, served);
        assert r[1..] == Ranked(e, rest, fs, at, served);
      } else if e.kind(Next(e, rest)) == Offensive || fs[at-1].priority == "" {
        RankedIsServed(e, rest, fs, gs, at, true);
        NextStays(e, rest, fs, at, true);
        assert r[1..] == Ranked(e, rest, fs, at, true);
      } else {
        RankedIsServed(e, rest, fs, gs, at, true);
        ServedOnce(e, l, e.offensiveLine(Bold(l), fs[at-1]), Ranked(e, rest, fs, at, true), gs, at);
      }
    }
  }

  lemma OffensiveNeedsNothing(e: Rules, l: string, s: string, rest: seq<string>)
    requires Sound(e) && e.kind(s) == Offensive && Settled(e, rest) && !NeedsScore(e, l) && SeverityLine(e, l) == None
    ensures Settled(e, [l, "", s] + rest)
  {
    NextOfMore(e, l, s, rest);
    assert Settled(e, [s] + rest);
    assert Settled(e, ["", s] + rest);
  }

  // Ranking a settled report leaves it settled: a priority goes below the severity, never between
  // the CVSS line and its severity.
  lemma {:induction false} RankingKeepsSettled(
      e: Rules, lines: seq<string>, fs: seq<Finding>, at: nat, served: bool)
    requires Sound(e) && Settled(e, lines)
    ensures Settled(e, Ranked(e, lines, fs, at, served))
  {
    if lines != [] && e.kind(lines[0]) != Boundary {
      var l, rest, r := lines[0], lines[1..], Ranked(e, lines, fs, at, served);
      var at2 := if e.kind(l) == Header then at + 1 else at;
      var served2 := e.kind(l) != Header && (served || !(at == 0 || at > |fs| || !AtInsert(e, l, rest)));
      RankingKeepsSettled(e, rest, fs, at2, served2);
      NextStays(e, rest, fs, at2, served2);
      if r == [l] + Ranked(e, rest, fs, at2, served2) {
        assert r[1..] == Ranked(e, rest, fs, at2, served2);
      } else {
        OffensiveNeedsNothing(e, l, e.offensiveLine(Bold(l), fs[at-1]), Ranked(e, rest, fs, at2, served2));
      }
    }
  }

  lemma {:induction false} HeadersStay(
      e: Rules, lines: seq<string>, fs: seq<Finding>, at: nat, served: bool)
    requires Sound(e)
    ensures Headers(e, Ranked(e, lines, fs, at, served)) == Headers(e, lines)
  {
    if lines != [] && e.kind(lines[0]) != Boundary {
      var l, rest, r := lines[0], lines[1..], Ranked(e, lines, fs, at, served);
      var at2 := if e.kind(l) == Header then at + 1 else at;
      var served2 := e.kind(l) != Header && (served || !(at == 0 || at > |fs| || !AtInsert(e, l, rest)));
      HeadersStay(e, rest, fs, at2, served2);
      var tail := Ranked(e, rest, fs, at2, served2);
      if r == [l] + tail {
        assert r[1..] == tail;
      } else {
        var s := e.offensiveLine(Bold(l), fs[at-1]);
        NextOfMore(e, l, s, tail);
        assert Headers(e, [s] + tail) == Headers(e, tail);
        assert Headers(e, ["", s] + tail) == Headers(e, tail);
      }
    }
  }

  // ---- the loops ----

  lemma SettledBeyond(e: Rules, lines: seq<string>)
    requires Sound(e) && e.kind(Next(e, lines)) == Vsvs
    ensures Settled(e, lines) <==> Settled(e, Beyond(e, lines))
  {
    if e.kind(lines[0]) == Blank { SettledBeyond(e, lines[1..]); }
  }

  // The index of the first line from j on that is not blank.
  method SkipBlank(e: Rules, lines: seq<string>, i: nat) returns (j: nat)
    requires Sound(e) && i <= |lines|
    ensures IsNext(e, lines, i, j)
  {
    j := i;
    while j < |lines| && e.kind(lines[j]) == Blank
      invariant i <= j <= |lines|
      invariant Next(e, lines[i..]) == Next(e, lines[j..]) && Beyond(e, lines[i..]) == Beyond(e, lines[j..])
    {
      assert lines[j..][0] == lines[j] && lines[j..][1..] == lines[j+1..];
      j := j + 1;
    }
    if j < |lines| { assert lines[j..][0] == lines[j] && lines[j..][1..] == lines[j+1..]; }
  }

  lemma HeadOf(lines: seq<string>, i: nat)
    requires i < |lines|
    ensures lines[i..][0] == lines[i] && lines[i..][1..] == lines[i+1..]
  {
  }

  lemma Regrouped(out: seq<string>, ls: seq<string>, rest: seq<string>)
    ensures out + ls + rest == out + (ls + rest)
  {
  }

  // Where line i leads: the lines that take its place, and the line to go on from.
  function InPlace(e: Rules, l: string): seq<string> {
    [WithScore(e, l)] + match SeverityLine(e, l) case None => [] case Some(s) => ["", s]
  }

  // j is the first line from i on that is not blank.
  predicate IsNext(e: Rules, lines: seq<string>, i: nat, j: nat) {
    && i <= j <= |lines|
    && Next(e, lines[i..]) == (if j < |lines| then lines[j] else "")
    && (j < |lines| ==> Beyond(e, lines[i..]) == lines[j+1..])
  }

  predicate FoundVsvs(e: Rules, lines: seq<string>, j: nat) { j < |lines| && e.kind(lines[j]) == Vsvs }

  // Line i, with j the next that is not blank, gets a score, or a severity it does not have yet.
  predicate Changes(e: Rules, lines: seq<string>, i: nat, j: nat)
    requires i < |lines|
  {
    || NeedsScore(e, lines[i])
    || (SeverityLine(e, lines[i]).Some? && !(FoundVsvs(e, lines, j) && lines[j] == SeverityLine(e, lines[i]).value))
  }

  lemma RatedAt(e: Rules, lines: seq<string>, i: nat, j: nat, k: nat)
    requires Sound(e) && i < |lines| && VectorOf(e.kind(lines[i])).Some? && IsNext(e, lines, i + 1, j)
    requires k == if SeverityLine(e, lines[i]).Some? && FoundVsvs(e, lines, j) then j + 1 else i + 1
    ensures Rated(e, lines[i..]) == InPlace(e, lines[i]) + Rated(e, lines[k..])
    ensures Settled(e, lines[i..]) <==> !Changes(e, lines, i, j) && Settled(e, lines[k..])
  {
    HeadOf(lines, i);
    if FoundVsvs(e, lines, j) { SettledBeyond(e, lines[i+1..]); }
  }

  // One line with its vector: its score, and its severity in place of the one below it.
  method RateLine(e: Rules, lines: seq<string>, i0: nat, out0: seq<string>)
    returns (out: seq<string>, i: nat, changed: bool, ghost j: nat)
    requires Sound(e) && i0 < |lines| && VectorOf(e.kind(lines[i0])).Some?
    ensures IsNext(e, lines, i0 + 1, j) && out == out0 + InPlace(e, lines[i0])
    ensures i == if SeverityLine(e, lines[i0]).Some? && FoundVsvs(e, lines, j) then j + 1 else i0 + 1
    ensures changed == Changes(e, lines, i0, j)
  {
    i, changed := i0, false;
    var line := lines[i];
    if NeedsScore(e, line) {
      line := WithScore(e, line);
      changed := true;
    }
    var next := SkipBlank(e, lines, i + 1);
    j := next;
    var nextIsVsvs := next < |lines| && e.kind(lines[next]) == Vsvs;
    var severity := e.severity(VectorOf(e.kind(lines[i])).value);
    out := out0 + [line];
    if severity.Some? {
      var s := e.vsvsLine(e.kind(lines[i]).Cvss?, severity.value);
      out := out + ["", s];
      if nextIsVsvs {
        if lines[next] != s { changed := true; }
        i := next;
      } else {
        changed := true;
      }
    }
    i := i + 1;
  }

  lemma RatedOn(
      e: Rules, lines: seq<string>, i: nat, j: nat, k: nat, out: seq<string>, changed: bool, rated: bool)
    requires Sound(e) && i < |lines| && VectorOf(e.kind(lines[i])).Some? && IsNext(e, lines, i + 1, j)
    requires k == if SeverityLine(e, lines[i]).Some? && FoundVsvs(e, lines, j) then j + 1 else i + 1
    requires rated == Changes(e, lines, i, j)
    requires RatedTo(e, lines, i, out, changed)
    ensures RatedTo(e, lines, k, out + InPlace(e, lines[i]), changed || rated)
  {
    RatedAt(e, lines, i, j, k);
    Regrouped(out, InPlace(e, lines[i]), Rated(e, lines[k..]));
  }

  // How far the rating has come at line i.
  ghost predicate RatedTo(e: Rules, lines: seq<string>, i: nat, out: seq<string>, changed: bool)
    requires i <= |lines|
  {
    && out + Rated(e, lines[i..]) == Rated(e, lines)
    && (changed || !Settled(e, lines[i..]) <==> !Settled(e, lines))
  }

  lemma CopiedLine(
      e: Rules, lines: seq<string>, i: nat, out: seq<string>, changed: bool)
    requires i < |lines| && RatedTo(e, lines, i, out, changed) && VectorOf(e.kind(lines[i])) == None
    ensures e.kind(lines[i]) != Boundary ==> RatedTo(e, lines, i + 1, out + [lines[i]], changed)
    ensures e.kind(lines[i]) == Boundary ==> out + lines[i..] == Rated(e, lines) && changed == !Settled(e, lines)
  {
    HeadOf(lines, i);
    Regrouped(out, [lines[i]], Rated(e, lines[i+1..]));
  }

  method RateStep(e: Rules, lines: seq<string>, i0: nat, out0: seq<string>, changed0: bool)
    returns (out: seq<string>, i: nat, changed: bool)
    requires Sound(e) && i0 < |lines| && VectorOf(e.kind(lines[i0])).Some? && RatedTo(e, lines, i0, out0, changed0)
    ensures i0 < i <= |lines| && RatedTo(e, lines, i, out, changed)
  {
    ghost var j;
    out, i, changed, j := RateLine(e, lines, i0, out0);
    RatedOn(e, lines, i0, j, i, out0, changed0, changed);
    changed := changed0 || changed;
  }

  // How far the pass has come, before or past the boundary.
  ghost predicate CvssTo(e: Rules, lines: seq<string>, i: nat, out: seq<string>, changed: bool, dropped: bool)
    requires i <= |lines|
  {
    if dropped then out + lines[i..] == Rated(e, lines) && changed == !Settled(e, lines)
    else RatedTo(e, lines, i, out, changed)
  }

  method AnnotateLine(e: Rules, lines: seq<string>, i0: nat, out0: seq<string>, changed0: bool, dropped0: bool)
    returns (out: seq<string>, i: nat, changed: bool, dropped: bool)
    requires Sound(e) && i0 < |lines| && CvssTo(e, lines, i0, out0, changed0, dropped0)
    ensures i0 < i <= |lines| && CvssTo(e, lines, i, out, changed, dropped)
  {
    dropped := dropped0 || e.kind(lines[i0]) == Boundary;
    if VectorOf(e.kind(lines[i0])) == None || dropped {
      if !dropped0 { CopiedLine(e, lines, i0, out0, changed0); }
      out, i, changed := out0 + [lines[i0]], i0 + 1, changed0;
      if dropped { Regrouped(out0, [lines[i0]], lines[i..]); assert lines[i0..] == [lines[i0]] + lines[i..]; }
    } else {
      out, i, changed := RateStep(e, lines, i0, out0, changed0);
    }
  }

  method AnnotateCvss(e: Rules, lines: seq<string>) returns (out: seq<string>, changed: bool)
    requires Sound(e)
    ensures out == Rated(e, lines) && changed == !Settled(e, lines)
  {
    out, changed := [], false;
    var dropped, i := false, 0;
    assert lines[0..] == lines;
    while i < |lines|
      invariant i <= |lines| && CvssTo(e, lines, i, out, changed, dropped)
    {
      out, i, changed, dropped := AnnotateLine(e, lines, i, out, changed, dropped);
    }
    assert lines[i..] == [];
  }

  // One line of a finding still to be served: its priority below it, if it is the place for it.
  method RankLine(e: Rules, lines: seq<string>, i: nat, out0: seq<string>, fs: seq<Finding>, at: nat)
    returns (out: seq<string>, served: bool, changed: bool)
    requires Sound(e) && i < |lines| && 0 < at <= |fs| && e.kind(lines[i]) != Boundary && e.kind(lines[i]) != Header
    ensures out + Ranked(e, lines[i+1..], fs, at, served) == out0 + Ranked(e, lines[i..], fs, at, false)
    ensures changed || !Served(e, lines[i+1..], fs, at, served) <==> !Served(e, lines[i..], fs, at, false)
  {
    var line := lines[i];
    HeadOf(lines, i);
    out, served, changed := out0 + [line], false, false;
    var j := SkipBlank(e, lines, i + 1);
    var next := if j < |lines| then lines[j] else "";
    var isVsvs := e.kind(line) == Vsvs;
    var isCvss := VectorOf(e.kind(line)).Some?;
    if isVsvs || (isCvss && e.kind(next) != Vsvs) {
      served := true;
      if e.kind(next) != Offensive && fs[at-1].priority != "" {
        var s := e.offensiveLine(Bold(line), fs[at-1]);
        out := out + ["", s];
        changed := true;
        assert out == out0 + [line, "", s];
        Regrouped(out0, [line, "", s], Ranked(e, lines[i+1..], fs, at, true));
        return;
      }
    }
    Regrouped(out0, [line], Ranked(e, lines[i+1..], fs, at, served));
  }

  // How far the ranking has come at line i.
  ghost predicate RankedTo(e: Rules, lines: seq<string>, i: nat, out: seq<string>, changed: bool, fs: seq<Finding>,
                           at: nat, served: bool)
    requires i <= |lines|
  {
    && out + Ranked(e, lines[i..], fs, at, served) == Ranked(e, lines, fs, 0, false)
    && (changed || !Served(e, lines[i..], fs, at, served) <==> !Served(e, lines, fs, 0, false))
  }

  lemma PassedLine(
      e: Rules, lines: seq<string>, i: nat, out: seq<string>, changed: bool, fs: seq<Finding>, at: nat,
      served: bool)
    requires i < |lines| && RankedTo(e, lines, i, out, changed, fs, at, served)
    ensures e.kind(lines[i]) == Boundary ==>
      out + lines[i..] == Ranked(e, lines, fs, 0, false) && changed == !Served(e, lines, fs, 0, false)
    ensures e.kind(lines[i]) == Header ==> RankedTo(e, lines, i + 1, out + [lines[i]], changed, fs, at + 1, false)
    ensures e.kind(lines[i]) != Boundary && e.kind(lines[i]) != Header && (at == 0 || at > |fs| || served) ==>
      RankedTo(e, lines, i + 1, out + [lines[i]], changed, fs, at, served)
  {
    HeadOf(lines, i);
    Regrouped(out, [lines[i]], Ranked(e, lines[i+1..], fs, at + 1, false));
    Regrouped(out, [lines[i]], Ranked(e, lines[i+1..], fs, at, served));
  }

  // One line before the boundary.
  method RankStep(e: Rules, lines: seq<string>, i: nat, out0: seq<string>, changed0: bool, fs: seq<Finding>, at0: nat,
                  served0: bool)
    returns (out: seq<string>, changed: bool, at: nat, served: bool)
    requires Sound(e) && i < |lines| && e.kind(lines[i]) != Boundary
    requires RankedTo(e, lines, i, out0, changed0, fs, at0, served0)
    ensures RankedTo(e, lines, i + 1, out, changed, fs, at, served)
    ensures if e.kind(lines[i]) == Header then at == at0 + 1 && !served else at == at0
    ensures at == 0 || at > |fs| ==> !served || served == served0
  {
    PassedLine(e, lines, i, out0, changed0, fs, at0, served0);
    out, changed, at, served := out0 + [lines[i]], changed0, at0, served0;
    if e.kind(lines[i]) == Header {
      at, served := at + 1, false;
    } else if at != 0 && at <= |fs| && !served {
      var ranked;
      out, served, ranked := RankLine(e, lines, i, out0, fs, at);
      changed := changed || ranked;
    }
  }

  ghost predicate OffensiveTo(e: Rules, lines: seq<string>, i: nat, out: seq<string>, changed: bool, fs: seq<Finding>,
                              at: nat, done: seq<bool>, dropped: bool)
    requires i <= |lines|
  {
    && |done| == |fs| && (forall k | at <= k < |fs| :: !done[k])
    && if dropped then out + lines[i..] == Ranked(e, lines, fs, 0, false) && changed == !Served(e, lines, fs, 0, false)
       else RankedTo(e, lines, i, out, changed, fs, at, IsDone(done, at))
  }

  method OffensiveLine(e: Rules, lines: seq<string>, i: nat, out0: seq<string>, changed0: bool, fs: seq<Finding>,
                       at0: nat, done0: seq<bool>, dropped0: bool)
    returns (out: seq<string>, changed: bool, at: nat, done: seq<bool>, dropped: bool)
    requires Sound(e) && i < |lines| && OffensiveTo(e, lines, i, out0, changed0, fs, at0, done0, dropped0)
    ensures OffensiveTo(e, lines, i + 1, out, changed, fs, at, done, dropped)
  {
    out, changed, at, done := out0, changed0, at0, done0;
    dropped := dropped0 || e.kind(lines[i]) == Boundary;
    if dropped {
      if !dropped0 { PassedLine(e, lines, i, out, changed, fs, at, IsDone(done, at)); }
      Regrouped(out0, [lines[i]], lines[i+1..]);
      assert lines[i..] == [lines[i]] + lines[i+1..];
      out := out + [lines[i]];
    } else {
      var served;
      out, changed, at, served := RankStep(e, lines, i, out, changed, fs, at, IsDone(done, at));
      if 0 < at <= |fs| { done := done[at-1 := served]; }
    }
  }

  method AnnotateOffensive(e: Rules, lines: seq<string>, fs: seq<Finding>) returns (out: seq<string>, changed: bool)
    requires Sound(e)
    ensures out == Ranked(e, lines, fs, 0, false) && changed == !Served(e, lines, fs, 0, false)
  {
    out, changed := [], false;
    var dropped := false;
    var at: nat := 0;                      // so many findings have begun
    var done := seq(|fs|, _ => false);
    assert lines[0..] == lines;
    for i := 0 to |lines|
      invariant OffensiveTo(e, lines, i, out, changed, fs, at, done, dropped)
    {
      out, changed, at, done, dropped := OffensiveLine(e, lines, i, out, changed, fs, at, done, dropped);
    }
    assert lines[|lines|..] == [];
  }

  predicate IsDone(done: seq<bool>, at: nat) { 0 < at <= |done| && done[at-1] }

  // ---- the file ----

  function Findings(e: Rules, lines: seq<string>): seq<Finding> {
    seq(Headers(e, lines), k requires k >= 0 => e.judge(lines, k))
  }

  function RatedFile(e: Rules, text: string): string {
    if Settled(e, Lines(text)) then text else Written(Rated(e, Lines(text)))
  }

  function RankedFile(e: Rules, text: string): string {
    var lines := Lines(text);
    if Served(e, lines, Findings(e, lines), 0, false) then text
    else Written(Ranked(e, lines, Findings(e, lines), 0, false))
  }

  function Enriched(e: Rules, text: string): string { RankedFile(e, RatedFile(e, text)) }

  // A pass writes the file only when it has changed a line.
  method EnrichFile(e: Rules, text: string) returns (r: string)
    requires Sound(e)
    ensures r == Enriched(e, text)
  {
    r := text;
    var out, changed := AnnotateCvss(e, Lines(r));
    if changed { r := Written(out); }
    var lines := Lines(r);
    var fs := Findings(e, lines);
    if fs != [] {
      out, changed := AnnotateOffensive(e, lines, fs);
      if changed { r := Written(out); }
    } else {
      NothingToServe(e, lines);
    }
  }

  lemma {:induction false} NothingToServe(e: Rules, lines: seq<string>)
    requires Headers(e, lines) == 0
    ensures Served(e, lines, [], 0, false)
  {
    if lines != [] && e.kind(lines[0]) != Boundary { NothingToServe(e, lines[1..]); }
  }

  ghost predicate WritesWhole(e: Rules) {
    && (forall l | Unbroken(l) && NeedsScore(e, l) :: Unbroken(WithScore(e, l)))
    && (forall l | Unbroken(l) && SeverityLine(e, l).Some? :: Unbroken(SeverityLine(e, l).value))
    && (forall lines, k, bold | AllUnbroken(lines) :: Unbroken(e.offensiveLine(bold, e.judge(lines, k))))
  }

  lemma {:induction false} BeyondIsUnbroken(e: Rules, lines: seq<string>)
    requires AllUnbroken(lines)
    ensures AllUnbroken(Beyond(e, lines))
  {
    if lines != [] && e.kind(lines[0]) == Blank { BeyondIsUnbroken(e, lines[1..]); }
  }

  lemma {:induction false} RatedIsUnbroken(e: Rules, lines: seq<string>)
    requires Sound(e) && WritesWhole(e) && AllUnbroken(lines)
    ensures AllUnbroken(Rated(e, lines))
    decreases |lines|
  {
    if lines != [] && e.kind(lines[0]) != Boundary {
      BeyondIsUnbroken(e, lines[1..]);
      RatedIsUnbroken(e, Beyond(e, lines[1..]));
      RatedIsUnbroken(e, lines[1..]);
      assert Unbroken(lines[0]) && Unbroken(WithScore(e, lines[0])) && Unbroken("");
    }
  }

  lemma {:induction false} RankedIsUnbroken(
      e: Rules, lines: seq<string>, fs: seq<Finding>, at: nat, served: bool)
    requires AllUnbroken(lines)
    requires forall bold, k | 0 <= k < |fs| :: Unbroken(e.offensiveLine(bold, fs[k]))
    ensures AllUnbroken(Ranked(e, lines, fs, at, served))
  {
    if lines != [] && e.kind(lines[0]) != Boundary {
      assert Unbroken(lines[0]) && Unbroken("");
      RankedIsUnbroken(e, lines[1..], fs, at + 1, false);
      RankedIsUnbroken(e, lines[1..], fs, at, served);
      RankedIsUnbroken(e, lines[1..], fs, at, true);
    }
  }

  lemma RatedFileIsSettled(e: Rules, text: string)
    requires Sound(e) && WritesWhole(e)
    ensures Settled(e, Lines(RatedFile(e, text))) && AllUnbroken(Lines(RatedFile(e, text)))
  {
    LinesAreUnbroken(text, "");
    LinesAreUnbroken(RatedFile(e, text), "");
    var lines := Lines(text);
    if !Settled(e, lines) {
      RatedIsUnbroken(e, lines);
      WrittenIsRead(Rated(e, lines));
      RatedIsSettled(e, lines);
    }
  }

  lemma RankedFileIsServed(e: Rules, text: string)
    requires Sound(e) && WritesWhole(e) && Settled(e, Lines(text))
    ensures var lines := Lines(RankedFile(e, text)); Settled(e, lines) && Served(e, lines, Findings(e, lines), 0, false)
  {
    LinesAreUnbroken(text, "");
    var lines := Lines(text);
    if !Served(e, lines, Findings(e, lines), 0, false) {
      var fs := Findings(e, lines);
      RankedIsUnbroken(e, lines, fs, 0, false);
      WrittenIsRead(Ranked(e, lines, fs, 0, false));
      HeadersStay(e, lines, fs, 0, false);
      RankedIsServed(e, lines, fs, Findings(e, Ranked(e, lines, fs, 0, false)), 0, false);
      RankingKeepsSettled(e, lines, fs, 0, false);
    }
  }

  // Enriching an enriched report leaves the file as it is.
  lemma EnrichedIsIdempotent(e: Rules, text: string)
    requires Sound(e) && WritesWhole(e)
    ensures Enriched(e, Enriched(e, text)) == Enriched(e, text)
  {
    RatedFileIsSettled(e, text);
    RankedFileIsServed(e, RatedFile(e, text));
  }

  // ---- what is kept ----

  // `out` is `lines` with CVSS lines scored, severities put in below a blank line, and nothing taken
  // out but a severity, with the blank lines above it, that another one replaces.
  predicate Reworded(e: Rules, lines: seq<string>, out: seq<string>)
    decreases |out|
  {
    || lines == out
    || (lines != [] && out != [] && out[0] == WithScore(e, lines[0]) && Reworded(e, lines[1..], out[1..]))
    || (&& |out| >= 2 && out[0] == "" && e.kind(out[1]) == Vsvs
        && (|| Reworded(e, lines, out[2..])
            || (e.kind(Next(e, lines)) == Vsvs && Reworded(e, Beyond(e, lines), out[2..]))))
  }

  // Rating loses no line: it scores CVSS lines, and adds severities or replaces them.
  lemma {:induction false} RatedIsReworded(e: Rules, lines: seq<string>)
    requires Sound(e)
    ensures Reworded(e, lines, Rated(e, lines))
    decreases |lines|
  {
    if lines != [] && e.kind(lines[0]) != Boundary {
      var l, out := WithScore(e, lines[0]), Rated(e, lines);
      match SeverityLine(e, lines[0])
      case None =>
        RatedIsReworded(e, lines[1..]);
        assert out[1..] == Rated(e, lines[1..]);
      case Some(s) =>
        var rest := if e.kind(Next(e, lines[1..])) == Vsvs then Beyond(e, lines[1..]) else lines[1..];
        RatedIsReworded(e, rest);
        NextOfMore(e, l, s, Rated(e, rest));
        assert out[1..] == ["", s] + Rated(e, rest) && out[1..][2..] == Rated(e, rest);
        assert Reworded(e, lines[1..], out[1..]);
    }
  }

  // `out` is `lines` with nothing done but priorities put in, each below a blank line.
  predicate Grown(e: Rules, lines: seq<string>, out: seq<string>)
    decreases |out|
  {
    || lines == out
    || (lines != [] && out != [] && out[0] == lines[0] && Grown(e, lines[1..], out[1..]))
    || (|out| >= 2 && out[0] == "" && e.kind(out[1]) == Offensive && Grown(e, lines, out[2..]))
  }

  // Ranking loses and changes no line.
  lemma {:induction false} RankedIsGrown(
      e: Rules, lines: seq<string>, fs: seq<Finding>, at: nat, served: bool)
    requires Sound(e)
    ensures Grown(e, lines, Ranked(e, lines, fs, at, served))
  {
    if lines != [] && e.kind(lines[0]) != Boundary {
      var l, rest, out := lines[0], lines[1..], Ranked(e, lines, fs, at, served);
      var at2 := if e.kind(l) == Header then at + 1 else at;
      var served2 := e.kind(l) != Header && (served || !(at == 0 || at > |fs| || !AtInsert(e, l, rest)));
      RankedIsGrown(e, rest, fs, at2, served2);
      var tail := Ranked(e, rest, fs, at2, served2);
      if out == [l] + tail {
        assert out[1..] == tail;
      } else {
        var s := e.offensiveLine(Bold(l), fs[at-1]);
        NextOfMore(e, l, s, tail);
        assert out[1..] == ["", s] + tail && out[1..][2..] == tail;
        assert Grown(e, rest, out[1..]);
      }
    }
  }
}
