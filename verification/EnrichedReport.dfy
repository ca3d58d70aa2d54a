// What an enriched report says, finding by finding, in terms of its lines.

module EnrichedReport {
  import opened Common
  import opened ReportFile
  import opened Enrich

  // ---- priorities ----

  // Lines of one finding: no heading, and not past the findings.
  predicate Plain(e: Rules, lines: seq<string>) {
    forall i | 0 <= i < |lines| :: e.kind(lines[i]) != Header && e.kind(lines[i]) != Boundary
  }

  predicate EndsFinding(e: Rules, after: seq<string>) {
    after == [] || e.kind(after[0]) == Header || e.kind(after[0]) == Boundary
  }

  // Below line p, but for blank lines, comes line q of that kind.
  predicate Below(e: Rules, lines: seq<string>, p: nat, q: nat, k: Kind) {
    p < q < |lines| && e.kind(lines[q]) == k && forall i | p < i < q :: e.kind(lines[i]) == Blank
  }

  predicate Reaches(e: Rules, lines: seq<string>, p: nat, k: Kind) {
    exists q | p < q < |lines| :: Below(e, lines, p, q, k)
  }

  // A priority goes below a severity, or below a CVSS line without one.
  predicate IsPlace(e: Rules, lines: seq<string>, p: nat) {
    p < |lines| && match e.kind(lines[p])
      case Vsvs => true
      case Cvss(_) => !Reaches(e, lines, p, Vsvs)
      case AltCvss(_) => !Reaches(e, lines, p, Vsvs)
      case _ => false
  }

  // The lines with the priority of a finding below line p.
  function WithPriority(e: Rules, lines: seq<string>, p: nat, f: Finding): seq<string>
    requires p < |lines|
  {
    lines[..p+1] + ["", e.offensiveLine("**" <= lines[p], f)] + lines[p+1..]
  }

  lemma {:induction false} NextIs(e: Rules, body: seq<string>, after: seq<string>, k: Kind)
    requires Sound(e) && Plain(e, body) && EndsFinding(e, after) && k in {Vsvs, Offensive}
    ensures e.kind(Next(e, body + after)) == k
       <==> exists q :: 0 <= q < |body| && e.kind(body[q]) == k && forall i | 0 <= i < q :: e.kind(body[i]) == Blank
  {
    if body == [] {
      assert body + after == after;
    } else {
      assert (body + after)[1..] == body[1..] + after && (body + after)[0] == body[0];
      if e.kind(body[0]) == Blank {
        NextIs(e, body[1..], after, k);
        assert forall q | 0 <= q < |body[1..]| :: body[1..][q] == body[q+1];
        if q :| 0 <= q < |body| && e.kind(body[q]) == k && forall i | 0 <= i < q :: e.kind(body[i]) == Blank {
          assert e.kind(body[1..][q-1]) == k;
        }
        var rest := body[1..];
        if q :| 0 <= q < |rest| && e.kind(rest[q]) == k && forall i | 0 <= i < q :: e.kind(rest[i]) == Blank {
          assert e.kind(body[q+1]) == k;
        }
      } else if e.kind(body[0]) == k {
        assert e.kind(body[0]) == k;
      }
    }
  }

  lemma BelowFirst(e: Rules, body: seq<string>, after: seq<string>, k: Kind)
    requires Sound(e) && Plain(e, body) && EndsFinding(e, after) && k in {Vsvs, Offensive} && body != []
    ensures e.kind(Next(e, body[1..] + after)) == k <==> Reaches(e, body, 0, k)
  {
    var rest := body[1..];
    NextIs(e, rest, after, k);
    assert forall q | 0 <= q < |rest| :: rest[q] == body[q+1];
    if q :| 0 <= q < |rest| && e.kind(rest[q]) == k && forall i | 0 <= i < q :: e.kind(rest[i]) == Blank {
      forall i | 0 < i < q + 1 ensures e.kind(body[i]) == Blank { assert body[i] == rest[i-1]; }
      assert Below(e, body, 0, q + 1, k);
    }
    if q :| 0 < q < |body| && Below(e, body, 0, q, k) {
      forall i | 0 <= i < q - 1 ensures e.kind(rest[i]) == Blank { assert rest[i] == body[i+1]; }
      assert e.kind(rest[q-1]) == k;
    }
  }

  // The first line is a place, and has a priority, just as the pass sees it.
  lemma FirstLineSeen(e: Rules, body: seq<string>, after: seq<string>)
    requires Sound(e) && Plain(e, body) && EndsFinding(e, after) && body != []
    ensures AtInsert(e, body[0], body[1..] + after) <==> IsPlace(e, body, 0)
    ensures e.kind(Next(e, body[1..] + after)) == Offensive <==> Reaches(e, body, 0, Offensive)
  {
    BelowFirst(e, body, after, Vsvs);
    BelowFirst(e, body, after, Offensive);
  }

  lemma BelowShifts(e: Rules, body: seq<string>, p: nat, q: nat, k: Kind)
    requires body != [] && p < q
    ensures Below(e, body[1..], p, q, k) <==> Below(e, body, p + 1, q + 1, k)
  {
    assert forall i | 0 <= i < |body[1..]| :: body[1..][i] == body[i+1];
    if q < |body[1..]| {
      if Below(e, body, p + 1, q + 1, k) {
        forall i | p < i < q ensures e.kind(body[1..][i]) == Blank { assert e.kind(body[i+1]) == Blank; }
      }
      if Below(e, body[1..], p, q, k) {
        forall i | p + 1 < i < q + 1 ensures e.kind(body[i]) == Blank { assert e.kind(body[1..][i-1]) == Blank; }
      }
    }
  }

  lemma ReachShifts(e: Rules, body: seq<string>, p: nat, k: Kind)
    requires body != []
    ensures Reaches(e, body[1..], p, k) <==> Reaches(e, body, p + 1, k)
  {
    if q :| p < q < |body[1..]| && Below(e, body[1..], p, q, k) { BelowShifts(e, body, p, q, k); }
    if Reaches(e, body, p + 1, k) {
      var r := p + 1;
      var q: nat :| r < q < |body| && Below(e, body, r, q, k);
      BelowShifts(e, body, p, q - 1, k);
    }
  }

  lemma PlaceShifts(e: Rules, body: seq<string>, p: nat)
    requires body != []
    ensures IsPlace(e, body[1..], p) <==> IsPlace(e, body, p + 1)
    ensures Reaches(e, body[1..], p, Offensive) <==> Reaches(e, body, p + 1, Offensive)
  {
    ReachShifts(e, body, p, Vsvs);
    ReachShifts(e, body, p, Offensive);
  }

  // ---- the pass, line by line ----

  lemma LinePassed(e: Rules, l: string, rest: seq<string>, fs: seq<Finding>, at: nat, served: bool)
    requires e.kind(l) != Header && e.kind(l) != Boundary
    requires at == 0 || at > |fs| || served || !AtInsert(e, l, rest)
    ensures Ranked(e, [l] + rest, fs, at, served) == [l] + Ranked(e, rest, fs, at, served)
  {
    assert ([l] + rest)[1..] == rest;
  }

  lemma LineServed(e: Rules, l: string, rest: seq<string>, fs: seq<Finding>, at: nat)
    requires e.kind(l) != Header && e.kind(l) != Boundary && 0 < at <= |fs| && AtInsert(e, l, rest)
    ensures Ranked(e, [l] + rest, fs, at, false)
         == (if e.kind(Next(e, rest)) == Offensive || fs[at-1].priority == "" then [l]
             else [l, "", e.offensiveLine("**" <= l, fs[at-1])]) + Ranked(e, rest, fs, at, true)
  {
    assert ([l] + rest)[1..] == rest;
  }

  lemma HeadingPassed(e: Rules, h: string, rest: seq<string>, fs: seq<Finding>, at: nat, served: bool)
    requires e.kind(h) == Header
    ensures Ranked(e, [h] + rest, fs, at, served) == [h] + Ranked(e, rest, fs, at + 1, false)
  {
    assert ([h] + rest)[1..] == rest;
  }

  lemma Regrouped(x: seq<string>, a: seq<string>, b: seq<string>)
    ensures x + (a + b) == x + a + b
  {
  }

  // Nothing is put in where no finding waits for a priority, or there is no place.
  lemma {:induction false} NothingPutIn(
      e: Rules, body: seq<string>, after: seq<string>, fs: seq<Finding>, at: nat, served: bool)
    requires Sound(e) && Plain(e, body) && EndsFinding(e, after)
    requires at == 0 || served || forall p: nat :: !IsPlace(e, body, p)
    ensures Ranked(e, body + after, fs, at, served) == body + Ranked(e, after, fs, at, served)
  {
    if body == [] {
      assert body + after == after && body + Ranked(e, after, fs, at, served) == Ranked(e, after, fs, at, served);
    } else {
      assert body + after == [body[0]] + (body[1..] + after);
      FirstLineSeen(e, body, after);
      LinePassed(e, body[0], body[1..] + after, fs, at, served);
      forall p: nat | at != 0 && !served ensures !IsPlace(e, body[1..], p) { PlaceShifts(e, body, p); }
      NothingPutIn(e, body[1..], after, fs, at, served);
      Rejoined(body, Ranked(e, after, fs, at, served));
    }
  }

  lemma Rejoined(body: seq<string>, rest: seq<string>)
    requires body != []
    ensures [body[0]] + (body[1..] + rest) == body + rest
  {
  }

  // What a finding's lines become when p is the first place for its priority.
  function Placed(e: Rules, body: seq<string>, p: nat, f: Finding): seq<string>
    requires p < |body|
  {
    if f.priority == "" || Reaches(e, body, p, Offensive) then body else WithPriority(e, body, p, f)
  }

  lemma PlacedLater(e: Rules, body: seq<string>, p: nat, f: Finding)
    requires 0 < p < |body|
    ensures Placed(e, body, p, f) == [body[0]] + Placed(e, body[1..], p - 1, f)
  {
    PlaceShifts(e, body, p - 1);
    assert body[1..][p-1] == body[p] && body[p+1..] == body[1..][p..] && body[..p+1] == [body[0]] + body[1..][..p];
  }

  lemma PutInFirst(e: Rules, body: seq<string>, after: seq<string>, fs: seq<Finding>, at: nat)
    requires Sound(e) && Plain(e, body) && EndsFinding(e, after) && 0 < at <= |fs| && IsPlace(e, body, 0)
    ensures Ranked(e, body + after, fs, at, false) == Placed(e, body, 0, fs[at-1]) + Ranked(e, after, fs, at, true)
  {
    var l, rest, tail := body[0], body[1..], Ranked(e, after, fs, at, true);
    assert body + after == [l] + (rest + after);
    FirstLineSeen(e, body, after);
    LineServed(e, l, rest + after, fs, at);
    NothingPutIn(e, rest, after, fs, at, true);
    PlacedFirst(e, body, fs[at-1], tail);
  }

  lemma PlacedFirst(e: Rules, body: seq<string>, f: Finding, tail: seq<string>)
    requires body != []
    ensures (if Reaches(e, body, 0, Offensive) || f.priority == "" then [body[0]]
             else [body[0], "", e.offensiveLine("**" <= body[0], f)]) + (body[1..] + tail)
         == Placed(e, body, 0, f) + tail
  {
    assert body[..1] == [body[0]];
  }

  lemma {:induction false} PutInAtPlace(
      e: Rules, body: seq<string>, after: seq<string>, fs: seq<Finding>, at: nat, p: nat)
    requires Sound(e) && Plain(e, body) && EndsFinding(e, after) && 0 < at <= |fs|
    requires IsPlace(e, body, p) && forall i: nat | i < p :: !IsPlace(e, body, i)
    ensures Ranked(e, body + after, fs, at, false) == Placed(e, body, p, fs[at-1]) + Ranked(e, after, fs, at, true)
  {
    if p == 0 {
      PutInFirst(e, body, after, fs, at);
    } else {
      var l, rest := body[0], body[1..];
      assert body + after == [l] + (rest + after);
      FirstLineSeen(e, body, after);
      LinePassed(e, l, rest + after, fs, at, false);
      PlaceShifts(e, body, p - 1);
      forall i: nat | i < p - 1 ensures !IsPlace(e, rest, i) { PlaceShifts(e, body, i); }
      PutInAtPlace(e, rest, after, fs, at, p - 1);
      PlacedLater(e, body, p, fs[at-1]);
      Regrouped([l], Placed(e, rest, p - 1, fs[at-1]), Ranked(e, after, fs, at, true));
    }
  }

  // ---- one finding among the others ----

  lemma {:induction false} NextInParts(e: Rules, lines: seq<string>, more: seq<string>)
    requires Sound(e) && more != [] && e.kind(more[0]) == Header
    ensures Next(e, lines + more) == Next(e, lines)
         || (e.kind(Next(e, lines)) == Blank && Next(e, lines + more) == more[0])
  {
    if lines == [] {
      assert lines + more == more;
    } else {
      assert (lines + more)[1..] == lines[1..] + more && (lines + more)[0] == lines[0];
      if e.kind(lines[0]) == Blank { NextInParts(e, lines[1..], more); }
    }
  }

  lemma InsertInParts(e: Rules, l: string, rest: seq<string>, more: seq<string>)
    requires Sound(e) && more != [] && e.kind(more[0]) == Header
    ensures AtInsert(e, l, rest + more) == AtInsert(e, l, rest)
    ensures e.kind(Next(e, rest + more)) == Offensive <==> e.kind(Next(e, rest)) == Offensive
  {
    NextInParts(e, rest, more);
  }

  // What comes before a heading is ranked without regard to what follows, and the findings are counted on.
  lemma {:induction false} RankedInParts(
      e: Rules, lines: seq<string>, more: seq<string>, fs: seq<Finding>, at: nat, served: bool)
    requires Sound(e) && more != [] && e.kind(more[0]) == Header
    requires forall i | 0 <= i < |lines| :: e.kind(lines[i]) != Boundary
    ensures Ranked(e, lines + more, fs, at, served)
         == Ranked(e, lines, fs, at, served) + Ranked(e, more, fs, at + Headers(e, lines), false)
  {
    if lines == [] {
      assert lines + more == more;
      HeadingPassed(e, more[0], more[1..], fs, at, served);
      HeadingPassed(e, more[0], more[1..], fs, at, false);
      assert more == [more[0]] + more[1..];
    } else {
      var l, rest := lines[0], lines[1..];
      assert lines == [l] + rest && lines + more == [l] + (rest + more);
      InsertInParts(e, l, rest, more);
      var at2 := if e.kind(l) == Header then at + 1 else at;
      var served2 := e.kind(l) != Header && (served || !(at == 0 || at > |fs| || !AtInsert(e, l, rest)));
      RankedInParts(e, rest, more, fs, at2, served2);
      var x := LineInParts(e, l, rest, more, fs, at, served, at2, served2);
      Regrouped(x, Ranked(e, rest, fs, at2, served2), Ranked(e, more, fs, at + Headers(e, lines), false));
    }
  }

  lemma LineInParts(
      e: Rules, l: string, rest: seq<string>, more: seq<string>, fs: seq<Finding>, at: nat, served: bool,
      at2: nat, served2: bool)
    returns (x: seq<string>)
    requires Sound(e) && more != [] && e.kind(more[0]) == Header && e.kind(l) != Boundary
    requires at2 == if e.kind(l) == Header then at + 1 else at
    requires served2 <==> e.kind(l) != Header && (served || !(at == 0 || at > |fs| || !AtInsert(e, l, rest)))
    ensures Ranked(e, [l] + rest, fs, at, served) == x + Ranked(e, rest, fs, at2, served2)
    ensures Ranked(e, [l] + (rest + more), fs, at, served) == x + Ranked(e, rest + more, fs, at2, served2)
  {
    x := [l];
    InsertInParts(e, l, rest, more);
    if e.kind(l) == Header {
      HeadingPassed(e, l, rest, fs, at, served);
      HeadingPassed(e, l, rest + more, fs, at, served);
    } else if at == 0 || at > |fs| || served || !AtInsert(e, l, rest) {
      LinePassed(e, l, rest, fs, at, served);
      LinePassed(e, l, rest + more, fs, at, served);
    } else {
      LineServed(e, l, rest, fs, at);
      LineServed(e, l, rest + more, fs, at);
      if !(e.kind(Next(e, rest)) == Offensive || fs[at-1].priority == "") {
        x := [l, "", e.offensiveLine("**" <= l, fs[at-1])];
      }
    }
  }

  // Each finding is ranked by itself, and with its own priority: the lines of the k-th heading gain,
  // below the first place for it, what the rules write for the k-th finding, unless that has no
  // priority, or one is there.
  lemma FindingIsRanked(
      e: Rules, before: seq<string>, h: string, body: seq<string>, after: seq<string>, p: nat, lines: seq<string>)
    requires Sound(e) && lines == before + ([h] + (body + after))
    requires (forall i | 0 <= i < |before| :: e.kind(before[i]) != Boundary)
    requires e.kind(h) == Header && Plain(e, body) && EndsFinding(e, after)
    requires IsPlace(e, body, p) && forall i: nat | i < p :: !IsPlace(e, body, i)
    ensures var fs, k := Findings(e, lines), Headers(e, before);
      && k < |fs|
      && Ranked(e, lines, fs, 0, false)
         == Ranked(e, before, fs, 0, false)
            + ([h] + (Placed(e, body, p, e.judge(lines, k)) + Ranked(e, after, fs, k + 1, true)))
  {
    HeadersInParts(e, before, [h] + (body + after));
    RankedAmong(e, before, h, body, after, p, lines, Findings(e, lines));
  }

  lemma RankedAmong(
      e: Rules, before: seq<string>, h: string, body: seq<string>, after: seq<string>, p: nat, lines: seq<string>,
      fs: seq<Finding>)
    requires Sound(e) && lines == before + ([h] + (body + after)) && Headers(e, before) < |fs|
    requires (forall i | 0 <= i < |before| :: e.kind(before[i]) != Boundary)
    requires e.kind(h) == Header && Plain(e, body) && EndsFinding(e, after)
    requires IsPlace(e, body, p) && forall i: nat | i < p :: !IsPlace(e, body, i)
    ensures var k := Headers(e, before);
      Ranked(e, lines, fs, 0, false)
      == Ranked(e, before, fs, 0, false) + ([h] + (Placed(e, body, p, fs[k]) + Ranked(e, after, fs, k + 1, true)))
  {
    var more, k := [h] + (body + after), Headers(e, before);
    assert Ranked(e, more, fs, k, false) == [h] + (Placed(e, body, p, fs[k]) + Ranked(e, after, fs, k + 1, true)) by {
      RankedFromHeading(e, h, body, after, fs, k, p);
    }
    assert Ranked(e, lines, fs, 0, false) == Ranked(e, before, fs, 0, false) + Ranked(e, more, fs, k, false) by {
      RankedInParts(e, before, more, fs, 0, false);
    }
  }

  lemma RankedFromHeading(
      e: Rules, h: string, body: seq<string>, after: seq<string>, fs: seq<Finding>, k: nat, p: nat)
    requires Sound(e) && k < |fs| && e.kind(h) == Header && Plain(e, body) && EndsFinding(e, after)
    requires IsPlace(e, body, p) && forall i: nat | i < p :: !IsPlace(e, body, i)
    ensures Ranked(e, [h] + (body + after), fs, k, false)
         == [h] + (Placed(e, body, p, fs[k]) + Ranked(e, after, fs, k + 1, true))
  {
    HeadingPassed(e, h, body + after, fs, k, false);
    PutInAtPlace(e, body, after, fs, k + 1, p);
  }

  // Without a place it is left as it is.
  lemma FindingIsLeft(
      e: Rules, before: seq<string>, h: string, body: seq<string>, after: seq<string>, lines: seq<string>,
      fs: seq<Finding>)
    requires Sound(e) && lines == before + ([h] + (body + after))
    requires (forall i | 0 <= i < |before| :: e.kind(before[i]) != Boundary)
    requires e.kind(h) == Header && Plain(e, body) && EndsFinding(e, after)
    requires forall i: nat :: !IsPlace(e, body, i)
    ensures Ranked(e, lines, fs, 0, false)
         == Ranked(e, before, fs, 0, false) + ([h] + (body + Ranked(e, after, fs, Headers(e, before) + 1, false)))
  {
    RankedInParts(e, before, [h] + (body + after), fs, 0, false);
    HeadingPassed(e, h, body + after, fs, Headers(e, before), false);
    NothingPutIn(e, body, after, fs, Headers(e, before) + 1, false);
  }

  lemma {:induction false} HeadersInParts(e: Rules, lines: seq<string>, more: seq<string>)
    requires forall i | 0 <= i < |lines| :: e.kind(lines[i]) != Boundary
    ensures Headers(e, lines + more) == Headers(e, lines) + Headers(e, more)
  {
    if lines == [] {
      assert lines + more == more;
    } else {
      assert (lines + more)[1..] == lines[1..] + more && (lines + more)[0] == lines[0];
      HeadersInParts(e, lines[1..], more);
    }
  }

  // Before the first heading nothing is put in.
  lemma NothingBeforeHeadings(e: Rules, body: seq<string>, after: seq<string>, fs: seq<Finding>)
    requires Sound(e) && Plain(e, body) && EndsFinding(e, after)
    ensures Ranked(e, body + after, fs, 0, false) == body + Ranked(e, after, fs, 0, false)
  {
    NothingPutIn(e, body, after, fs, 0, false);
  }

  // The pass reports a change exactly when it makes one.
  lemma {:induction false} ServedIff(e: Rules, lines: seq<string>, fs: seq<Finding>, at: nat, served: bool)
    ensures |Ranked(e, lines, fs, at, served)| >= |lines|
    ensures Served(e, lines, fs, at, served) <==> Ranked(e, lines, fs, at, served) == lines
  {
    if lines != [] && e.kind(lines[0]) != Boundary {
      var l, rest, out := lines[0], lines[1..], Ranked(e, lines, fs, at, served);
      var at2 := if e.kind(l) == Header then at + 1 else at;
      var served2 := e.kind(l) != Header && (served || !(at == 0 || at > |fs| || !AtInsert(e, l, rest)));
      ServedIff(e, rest, fs, at2, served2);
      var tail := Ranked(e, rest, fs, at2, served2);
      if out == [l] + tail { assert out == lines <==> tail == rest by { assert out[1..] == tail; } }
    }
  }

  // ---- scores and severities ----

  // The severity line below line i, past blank lines.
  predicate SeverityBelow(e: Rules, lines: seq<string>, i: nat, text: string) {
    exists q | i < q < |lines| :: lines[q] == text && Below(e, lines, i, q, Vsvs)
  }

  lemma {:induction false} NextBelow(e: Rules, lines: seq<string>, i: nat, j: nat, k: Kind)
    requires i < j <= |lines| && forall m | i < m < j :: e.kind(lines[m]) == Blank
    requires e.kind(Next(e, lines[j..])) == k && k != Blank && e.kind("") == Blank
    ensures exists q | i < q < |lines| :: lines[q] == Next(e, lines[j..]) && Below(e, lines, i, q, k)
    decreases |lines| - j
  {
    assert j < |lines|;
    assert lines[j..][0] == lines[j] && lines[j..][1..] == lines[j+1..];
    if e.kind(lines[j]) == Blank {
      NextBelow(e, lines, i, j + 1, k);
    } else {
      assert Below(e, lines, i, j, k);
    }
  }

  lemma {:induction false} SettledFrom(e: Rules, lines: seq<string>, i: nat)
    requires Settled(e, lines) && i < |lines| && forall j | 0 <= j <= i :: e.kind(lines[j]) != Boundary
    ensures !NeedsScore(e, lines[i]) && HasSeverity(e, lines[i], lines[i+1..])
  {
    if i > 0 {
      SettledFrom(e, lines[1..], i - 1);
      assert lines[1..][i..] == lines[i+1..];
    }
  }

  lemma {:induction false} BelowIsNext(e: Rules, lines: seq<string>, i: nat, j: nat, q: nat)
    requires i < j <= q && Below(e, lines, i, q, Vsvs)
    ensures Next(e, lines[j..]) == lines[q]
    decreases q - j
  {
    assert lines[j..][0] == lines[j] && lines[j..][1..] == lines[j+1..];
    if j < q { BelowIsNext(e, lines, i, j + 1, q); }
  }

  lemma SeverityIsNext(e: Rules, lines: seq<string>, i: nat, s: string)
    requires Sound(e) && i < |lines|
    ensures SeverityBelow(e, lines, i, s) <==> e.kind(Next(e, lines[i+1..])) == Vsvs && Next(e, lines[i+1..]) == s
  {
    if q :| i < q < |lines| && lines[q] == s && Below(e, lines, i, q, Vsvs) { BelowIsNext(e, lines, i, i + 1, q); }
    if e.kind(Next(e, lines[i+1..])) == Vsvs { NextBelow(e, lines, i, i + 1, Vsvs); }
  }

  // A CVSS line shows the score of its vector, if that has one, and has below it the severity of its
  // vector for the application, bold as the line is.
  predicate Tells(e: Rules, lines: seq<string>, i: nat)
    requires i < |lines|
  {
    match e.kind(lines[i])
    case Cvss(v) =>
      && (e.base(v).Some? ==> e.isScored(lines[i]))
      && (e.severity(v).Some? ==> SeverityBelow(e, lines, i, e.vsvsLine(true, e.severity(v).value)))
    case AltCvss(v) => e.severity(v).Some? ==> SeverityBelow(e, lines, i, e.vsvsLine(false, e.severity(v).value))
    case _ => true
  }

  // Line i stands among the findings, before those that were dropped.
  predicate Counts(e: Rules, lines: seq<string>, i: nat) {
    i < |lines| && forall j | 0 <= j <= i :: e.kind(lines[j]) != Boundary
  }

  lemma TellsWhen(e: Rules, lines: seq<string>, i: nat)
    requires Sound(e) && i < |lines|
    ensures Tells(e, lines, i) <==> !NeedsScore(e, lines[i]) && HasSeverity(e, lines[i], lines[i+1..])
  {
    var s := SeverityLine(e, lines[i]);
    if s.Some? { SeverityIsNext(e, lines, i, s.value); }
  }

  lemma {:induction false} UnsettledAt(e: Rules, lines: seq<string>) returns (i: nat)
    requires !Settled(e, lines)
    ensures Counts(e, lines, i) && (NeedsScore(e, lines[i]) || !HasSeverity(e, lines[i], lines[i+1..]))
  {
    i := 0;
    if !NeedsScore(e, lines[0]) && HasSeverity(e, lines[0], lines[1..]) {
      var k := UnsettledAt(e, lines[1..]);
      i := k + 1;
      assert lines[1..][k+1..] == lines[i+1..] && lines[1..][k] == lines[i];
      assert forall j | 1 <= j <= i :: lines[j] == lines[1..][j-1];
    }
  }

  // The first pass has nothing to change exactly when every CVSS line among the findings tells all.
  lemma SettledIff(e: Rules, lines: seq<string>)
    requires Sound(e)
    ensures Settled(e, lines) <==> forall i | Counts(e, lines, i) :: Tells(e, lines, i)
  {
    if Settled(e, lines) {
      forall i | Counts(e, lines, i) ensures Tells(e, lines, i) {
        SettledFrom(e, lines, i);
        TellsWhen(e, lines, i);
      }
    } else {
      var i := UnsettledAt(e, lines);
      TellsWhen(e, lines, i);
    }
  }

  // So it does in a rated report.
  lemma RatedTells(e: Rules, lines: seq<string>, out: seq<string>, i: nat)
    requires Sound(e) && out == Rated(e, lines) && Counts(e, out, i)
    ensures Tells(e, out, i)
  {
    RatedIsSettled(e, lines);
    SettledIff(e, out);
  }

  // And in the file that enriching leaves.
  lemma FileTells(e: Rules, text: string, out: seq<string>, i: nat)
    requires Sound(e) && WritesWhole(e) && out == Lines(Enriched(e, text)) && Counts(e, out, i)
    ensures Tells(e, out, i)
  {
    RatedFileIsSettled(e, text);
    RankedFileIsServed(e, RatedFile(e, text));
    SettledIff(e, out);
  }

  // A file in which every CVSS line tells all is left to the second pass as it is; any other is
  // rated as a whole.
  lemma FileIsRated(e: Rules, text: string)
    requires Sound(e) && WritesWhole(e)
    ensures if forall i | Counts(e, Lines(text), i) :: Tells(e, Lines(text), i) then RatedFile(e, text) == text
      else Lines(RatedFile(e, text)) == Rated(e, Lines(text))
  {
    SettledIff(e, Lines(text));
    LinesAreUnbroken(text, "");
    RatedIsUnbroken(e, Lines(text));
    WrittenIsRead(Rated(e, Lines(text)));
  }

  // The second pass ranks every finding that is read from what the first one left.
  lemma FileIsRanked(e: Rules, text: string, rated: seq<string>)
    requires Sound(e) && WritesWhole(e) && rated == Lines(RatedFile(e, text))
    ensures Lines(Enriched(e, text)) == Ranked(e, rated, Findings(e, rated), 0, false)
  {
    var fs := Findings(e, rated);
    LinesAreUnbroken(RatedFile(e, text), "");
    RankedIsUnbroken(e, rated, fs, 0, false);
    WrittenIsRead(Ranked(e, rated, fs, 0, false));
    ServedIff(e, rated, fs, 0, false);
  }

  // A line is scored by adding the score of its vector, unless one stands there.
  lemma ScoreIsAdded(e: Rules, l: string, v: string, b: string)
    requires e.kind(l) == Cvss(v) && e.base(v) == Some(b)
    ensures WithScore(e, l) == if e.isScored(l) then l else l + " - **" + b + "**"
  {
  }

  lemma NothingElseIsScored(e: Rules, l: string)
    requires !e.kind(l).Cvss? || e.base(e.kind(l).vector).None?
    ensures WithScore(e, l) == l
  {
  }
}
