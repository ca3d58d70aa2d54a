// The escape repairer: double every backslash that does not introduce one of the escapes it
// knows.  It knows fewer escapes than RFC 8259: \b and \f are doubled too.

module EscapeRepair {
  import opened Common
  import opened JsonGrammar
  import opened BalancedSpan

  const KNOWN := "\"\\/nrtu"

  function Repair(s: string): string {
    if s == "" then ""
    else if s[0] != '\\' then [s[0]] + Repair(s[1..])
    else if |s| >= 2 && s[1] in KNOWN then s[..2] + Repair(s[2..])
    else "\\\\" + Repair(s[1..])
  }

  predicate Escapes(s: string, i: nat) { i + 1 < |s| && s[i] == '\\' && s[i+1] in KNOWN }

  // From position i on, `piece` stands for the next n characters.
  lemma RepairStep(s: string, i: nat, piece: string, n: nat, out: string)
    requires i < |s|
    requires n == if Escapes(s, i) then 2 else 1
    requires piece == if Escapes(s, i) || s[i] != '\\' then s[i..i+n] else "\\\\"
    ensures out + piece + Repair(s[i+n..]) == out + Repair(s[i..])
  {
    var rest := s[i..];
    assert rest[1..] == s[i+1..];
    if |rest| >= 2 { assert rest[2..] == s[i+2..] && rest[..2] == s[i..i+2]; }
    assert out + piece + Repair(s[i+n..]) == out + (piece + Repair(s[i+n..]));
  }

  method RepairInvalidEscapes(s: string) returns (r: string)
    ensures r == Repair(s)
  {
    var out := "";
    var i, n := 0, |s|;
    while i < n
      invariant 0 <= i <= n
      invariant out + Repair(s[i..]) == Repair(s)
    {
      if s[i] == '\\' {
        if Escapes(s, i) {
          RepairStep(s, i, s[i..i+2], 2, out);
          out := out + s[i..i+2];
          i := i + 2;
          continue;
        }
        RepairStep(s, i, "\\\\", 1, out);
        out := out + "\\\\";
        i := i + 1;
        continue;
      }
      RepairStep(s, i, s[i..i+1], 1, out);
      out := out + s[i..i+1];
      i := i + 1;
    }
    r := out;
  }

  // Every backslash belongs to a known escape.
  predicate Clean(s: string) {
    s == ""
    || (if s[0] != '\\' then Clean(s[1..]) else |s| >= 2 && s[1] in KNOWN && Clean(s[2..]))
  }

  lemma {:induction false} RepairedIsClean(s: string)
    ensures Clean(Repair(s))
  {
    if s == "" {
    } else if s[0] != '\\' {
      RepairedIsClean(s[1..]);
    } else if |s| >= 2 && s[1] in KNOWN {
      RepairedIsClean(s[2..]);
      var r := s[..2] + Repair(s[2..]);
      assert r[2..] == Repair(s[2..]);
    } else {
      RepairedIsClean(s[1..]);
      var r := "\\\\" + Repair(s[1..]);
      assert r[2..] == Repair(s[1..]);
    }
  }

  lemma {:induction false} RepairNeverShrinks(s: string)
    ensures |Repair(s)| >= |s|
  {
    if s != "" {
      if s[0] == '\\' && |s| >= 2 && s[1] in KNOWN { RepairNeverShrinks(s[2..]); } else { RepairNeverShrinks(s[1..]); }
    }
  }

  // The repairer leaves exactly the clean texts alone.
  lemma {:induction false} UnchangedIffClean(s: string)
    ensures Repair(s) == s <==> Clean(s)
  {
    if s == "" {
    } else if s[0] != '\\' {
      UnchangedIffClean(s[1..]);
      assert s == [s[0]] + s[1..];
      assert ([s[0]] + Repair(s[1..]))[1..] == Repair(s[1..]);
    } else if |s| >= 2 && s[1] in KNOWN {
      UnchangedIffClean(s[2..]);
      assert s == s[..2] + s[2..];
      assert (s[..2] + Repair(s[2..]))[2..] == Repair(s[2..]);
    } else {
      RepairNeverShrinks(s[1..]);
    }
  }

  lemma {:induction false} RepairIsIdempotent(s: string)
    ensures Repair(Repair(s)) == Repair(s)
  {
    RepairedIsClean(s);
    UnchangedIffClean(Repair(s));
  }

  // ---- structure ----

  // Reading the repaired text leaves the scanner where the original text does; only a lone
  // backslash at the very end of an open string makes a difference.
  ghost predicate SameReading(f: Scan, g: Scan) {
    f == g || (f.Reading? && f.inStr && f.esc && g == f.(esc := false))
  }

  lemma {:induction false} RepairKeepsReading(open: char, st: Scan, s: string)
    requires IsOpener(open)
    requires st.Reading? ==> !st.esc
    ensures SameReading(After(open, st, s), After(open, st, Repair(s)))
    decreases |s|
  {
    if s == "" {
    } else if s[0] != '\\' {
      assert s == [s[0]] + s[1..];
      AfterCons(open, st, s[0], s[1..]);
      AfterCons(open, st, s[0], Repair(s[1..]));
      RepairKeepsReading(open, Step(open, st, s[0]), s[1..]);
    } else if |s| >= 2 && s[1] in KNOWN {
      var next := Step(open, Step(open, st, '\\'), s[1]);
      TwoSteps(open, st, '\\', s[1], s[2..]);
      TwoSteps(open, st, '\\', s[1], Repair(s[2..]));
      assert s == ['\\', s[1]] + s[2..] && s[..2] == ['\\', s[1]];
      RepairKeepsReading(open, next, s[2..]);
    } else {
      LoneBackslash(open, st, s);
      if |s| >= 2 {
        RepairKeepsReading(open, st, if st.Reading? && st.inStr then s[2..] else s[1..]);
      }
    }
  }

  // A backslash that is doubled: inside a string the character after it is an ordinary one, escaped
  // or not; elsewhere backslashes do not matter.
  lemma LoneBackslash(open: char, st: Scan, s: string)
    requires IsOpener(open) && (st.Reading? ==> !st.esc)
    requires s != "" && s[0] == '\\' && !(|s| >= 2 && s[1] in KNOWN)
    ensures |s| == 1 ==> SameReading(After(open, st, s), After(open, st, Repair(s)))
    ensures |s| >= 2 && st.Reading? && st.inStr ==>
      After(open, st, s) == After(open, st, s[2..]) && After(open, st, Repair(s)) == After(open, st, Repair(s[2..]))
    ensures |s| >= 2 && !(st.Reading? && st.inStr) ==>
      After(open, st, s) == After(open, st, s[1..]) && After(open, st, Repair(s)) == After(open, st, Repair(s[1..]))
  {
    TwoSteps(open, st, '\\', '\\', Repair(s[1..]));
    assert s == ['\\'] + s[1..];
    AfterCons(open, st, '\\', s[1..]);
    if |s| == 1 {
      assert s[1..] == "";
    } else if st.Reading? && st.inStr {
      var c := s[1];
      assert s == ['\\', c] + s[2..] && s[1..] == [c] + s[2..];
      TwoSteps(open, st, '\\', c, s[2..]);
      assert Repair(s[1..]) == [c] + Repair(s[2..]) by { assert s[1..][1..] == s[2..]; }
      AfterCons(open, st, c, Repair(s[2..]));
    }
  }

  lemma TwoSteps(open: char, st: Scan, a: char, b: char, t: string)
    ensures After(open, st, [a, b] + t) == After(open, Step(open, Step(open, st, a), b), t)
  {
    assert [a, b] + t == [a] + ([b] + t);
    AfterCons(open, st, a, [b] + t);
    AfterCons(open, Step(open, st, a), b, t);
  }

  lemma {:induction false} RepairSnoc(s: string, c: char)
    requires c !in KNOWN
    ensures Repair(s + [c]) == Repair(s) + [c]
    decreases |s|
  {
    if s == "" {
      assert "" + [c] == [c] && [c][1..] == "";
    } else {
      var t := s + [c];
      assert t[1..] == s[1..] + [c];
      RepairSnoc(s[1..], c);
      if s[0] == '\\' && |s| >= 2 && s[1] in KNOWN {
        assert t[2..] == s[2..] + [c] && t[..2] == s[..2];
        RepairSnoc(s[2..], c);
      }
    }
  }

  // A text is a balanced span exactly when its repaired form is one.
  lemma RepairKeepsSpans(t: string)
    requires t != "" && IsOpener(t[0])
    ensures IsSpan(t) <==> IsSpan(Repair(t))
  {
    var r := Repair(t);
    assert r[0] == t[0];
    var open := t[0];
    RepairKeepsReading(open, FRESH, t);
    if After(open, FRESH, t) == Shut {
      LastOfShut(open, t);
      LastOfShut(open, r);
      if IsSpan(t) || IsSpan(r) {
        var body, last := t[..|t|-1], t[|t|-1];
        assert t == body + [last];
        if last !in KNOWN {
          RepairSnoc(body, last);
          assert r[..|r|-1] == Repair(body);
          RepairKeepsReading(open, FRESH, body);
        } else {
          // then `t` was shut before its last character, and so was `r`
          ShutBeforeKnown(open, t);
          ShutSurvivesRepair(open, t);
        }
      }
    }
  }

  lemma LastOfShut(open: char, t: string)
    requires IsOpener(open) && t != "" && After(open, FRESH, t) == Shut
    ensures After(open, FRESH, t[..|t|-1]) == Shut || t[|t|-1] == CloserOf(open)
  {
  }

  lemma ShutBeforeKnown(open: char, t: string)
    requires IsOpener(open) && t != "" && After(open, FRESH, t) == Shut && t[|t|-1] in KNOWN
    ensures After(open, FRESH, t[..|t|-1]) == Shut
  {
  }

  lemma ShutSurvivesRepair(open: char, t: string)
    requires IsOpener(open) && t != "" && t[|t|-1] in KNOWN && After(open, FRESH, t) == Shut
    ensures After(open, FRESH, Repair(t)[..|Repair(t)|-1]) == Shut
  {
    var r := Repair(t);
    RepairNeverShrinks(t);
    RepairKeepsReading(open, FRESH, t);
    RepairedEndsKnown(t);
    ShutBeforeKnown(open, r);
  }

  lemma {:induction false} RepairedEndsKnown(t: string)
    requires t != "" && t[|t|-1] in KNOWN
    ensures Repair(t) != "" && Repair(t)[|Repair(t)|-1] in KNOWN
    decreases |t|
  {
    if t[0] == '\\' && |t| >= 2 && t[1] in KNOWN {
      if |t| > 2 { RepairedEndsKnown(t[2..]); } else { assert t[2..] == ""; }
    } else {
      if |t| > 1 { RepairedEndsKnown(t[1..]); } else { assert t[1..] == ""; }
    }
  }

  // ---- meaning ----

  // The repair of one unit: an unknown escape becomes an escaped backslash followed by the same
  // character.
  function FixUnit(u: Unit): seq<Unit> {
    if u.Esc? && u.c !in KNOWN then [Esc('\\'), Plain(u.c)] else [u]
  }

  function FixUnits(us: seq<Unit>): seq<Unit> {
    if us == [] then [] else FixUnit(us[0]) + FixUnits(us[1..])
  }

  function Fix(v: Value): Value {
    match v
    case Literal(_) => v
    case Number(_, _, _, _) => v
    case Str(us) => Str(FixUnits(us))
    case Arr(gap, es) => Arr(gap, FixElems(es))
    case Obj(gap, ms) => Obj(gap, FixMembers(ms))
  }

  function FixElems(es: Elems): Elems {
    match es
    case NoElem => NoElem
    case Elem(pre, v, post, rest) => Elem(pre, Fix(v), post, FixElems(rest))
  }

  function FixMembers(ms: Members): Members {
    match ms
    case NoMember => NoMember
    case Member(pre, key, mid, sep, v, post, rest) =>
      Member(pre, FixUnits(key), mid, sep, Fix(v), post, FixMembers(rest))
  }

  // Wherever `a` stands, repairing turns it into `r`, whatever follows.
  ghost predicate Becomes(a: string, r: string) {
    forall b :: Repair(a + b) == r + Repair(b)
  }

  lemma Chain(a: string, ra: string, b: string, rb: string)
    requires Becomes(a, ra) && Becomes(b, rb)
    ensures Becomes(a + b, ra + rb)
  {
    forall c ensures Repair((a + b) + c) == (ra + rb) + Repair(c) { ChainBefore(a, ra, b, rb, c); }
  }

  lemma ChainBefore(a: string, ra: string, b: string, rb: string, c: string)
    requires Becomes(a, ra) && Becomes(b, rb)
    ensures Repair((a + b) + c) == (ra + rb) + Repair(c)
  {
    assert (a + b) + c == a + (b + c);
    assert Repair(a + (b + c)) == ra + Repair(b + c);
    assert Repair(b + c) == rb + Repair(c);
    assert ra + (rb + Repair(c)) == (ra + rb) + Repair(c);
  }

  lemma {:induction false} NoBackslashStays(a: string)
    requires forall i | 0 <= i < |a| :: a[i] != '\\'
    ensures Becomes(a, a)
  {
    if a == "" {
      forall b ensures Repair(a + b) == a + Repair(b) { assert a + b == b; }
    } else {
      NoBackslashStays(a[1..]);
      CharStays(a[0]);
      Chain([a[0]], [a[0]], a[1..], a[1..]);
      assert [a[0]] + a[1..] == a;
    }
  }

  lemma CharStays(c: char)
    requires c != '\\'
    ensures Becomes([c], [c])
  {
    forall b ensures Repair([c] + b) == [c] + Repair(b) { assert ([c] + b)[1..] == b; }
  }

  lemma PrintOne(u: Unit)
    ensures PrintUnits([u]) == UnitText(u)
  {
    assert [u][1..] == [] && UnitText(u) + "" == UnitText(u);
  }

  lemma PrintConcat(a: seq<Unit>, b: seq<Unit>)
    ensures PrintUnits(a + b) == PrintUnits(a) + PrintUnits(b)
  {
    if a == [] {
      assert a + b == b;
    } else {
      PrintConcat(a[1..], b);
      assert (a + b)[1..] == a[1..] + b;
      assert UnitText(a[0]) + (PrintUnits(a[1..]) + PrintUnits(b)) == PrintUnits(a) + PrintUnits(b);
    }
  }

  lemma KnownEscapeStays(c: char)
    requires c in KNOWN
    ensures Becomes(['\\', c], ['\\', c])
  {
    forall b ensures Repair(['\\', c] + b) == ['\\', c] + Repair(b) {
      var t := ['\\', c] + b;
      assert t[2..] == b && t[..2] == ['\\', c];
    }
  }

  lemma UnknownEscapeDoubles(c: char)
    requires c !in KNOWN
    ensures Becomes(['\\', c], ['\\', '\\', c])
  {
    forall b ensures Repair(['\\', c] + b) == ['\\', '\\', c] + Repair(b) {
      var t := ['\\', c] + b;
      assert t[1..] == [c] + b && ([c] + b)[1..] == b;
      assert "\\\\" + ([c] + Repair(b)) == ['\\', '\\', c] + Repair(b);
    }
  }

  lemma UnitBecomes(u: Unit)
    requires u.Plain? ==> u.c != '\\'
    ensures Becomes(UnitText(u), PrintUnits(FixUnit(u)))
  {
    PrintOne(u);
    if u.Plain? {
      CharStays(u.c);
    } else if u.c in KNOWN {
      KnownEscapeStays(u.c);
    } else {
      UnknownEscapeDoubles(u.c);
      PrintConcat([Esc('\\')], [Plain(u.c)]);
      PrintOne(Esc('\\'));
      PrintOne(Plain(u.c));
      assert FixUnit(u) == [Esc('\\')] + [Plain(u.c)];
      assert PrintUnits(FixUnit(u)) == ['\\', '\\', u.c];
    }
  }

  lemma {:induction false} RepairFixesUnits(us: seq<Unit>)
    requires Quotable(us)
    ensures Becomes(PrintUnits(us), PrintUnits(FixUnits(us)))
  {
    if us == [] {
      NoBackslashStays("");
    } else {
      PrintConcat(FixUnit(us[0]), FixUnits(us[1..]));
      UnitBecomes(us[0]);
      RepairFixesUnits(us[1..]);
      Chain(UnitText(us[0]), PrintUnits(FixUnit(us[0])), PrintUnits(us[1..]), PrintUnits(FixUnits(us[1..])));
    }
  }

  lemma RepairFixesStr(us: seq<Unit>)
    requires Quotable(us)
    ensures Becomes(PrintStr(us), PrintStr(FixUnits(us)))
  {
    RepairFixesUnits(us);
    Enclose("\"", PrintUnits(us), PrintUnits(FixUnits(us)), "\"");
  }

  lemma Enclose(l: string, a: string, ra: string, r: string)
    requires l in {"[", "{", "\""} && r in {"]", "}", "\""} && Becomes(a, ra)
    ensures Becomes(l + a + r, l + ra + r)
  {
    NoBackslashStays(l);
    NoBackslashStays(r);
    Chain(l, l, a, ra);
    Chain(l + a, l + ra, r, r);
  }

  lemma {:induction false} RepairFixesValue(v: Value)
    requires Wf(v, false)
    ensures Becomes(Print(v), Print(Fix(v)))
  {
    match v
    case Literal(_) => NoBackslashStays(Print(v));
    case Number(_, _, _, _) => NoBackslashStays(Print(v));
    case Str(us) => RepairFixesStr(us);
    case Arr(gap, es) =>
      if es.NoElem? { NoBackslashStays(gap); } else { RepairFixesElems(es); }
      Enclose("[", if es.NoElem? then gap else PrintElems(es),
              if es.NoElem? then gap else PrintElems(FixElems(es)), "]");
    case Obj(gap, ms) =>
      if ms.NoMember? { NoBackslashStays(gap); } else { RepairFixesMembers(ms); }
      Enclose("{", if ms.NoMember? then gap else PrintMembers(ms),
              if ms.NoMember? then gap else PrintMembers(FixMembers(ms)), "}");
  }

  lemma {:induction false} RepairFixesElems(es: Elems)
    requires WfElems(es, false) && es.Elem?
    ensures Becomes(PrintElems(es), PrintElems(FixElems(es)))
  {
    var Elem(pre, v, post, rest) := es;
    if rest.Elem? { RepairFixesElems(rest); }
    var more := if rest.NoElem? then "" else PrintElems(rest);
    var moreFixed := if rest.NoElem? then "" else PrintElems(FixElems(rest));
    RepairFixesTail(rest.NoElem?, more, moreFixed);
    RepairFixesValue(v);
    RepairFixesItem(pre, Print(v), Print(Fix(v)), post, Tail(rest.NoElem?, more), Tail(rest.NoElem?, moreFixed));
  }

  function Tail(last: bool, more: string): string { if last then "" else "," + more }

  lemma RepairFixesTail(last: bool, more: string, fixed: string)
    requires !last ==> Becomes(more, fixed)
    ensures Becomes(Tail(last, more), Tail(last, fixed))
  {
    if last {
      NoBackslashStays("");
    } else {
      NoBackslashStays(",");
      Chain(",", ",", more, fixed);
    }
  }

  lemma RepairFixesItem(
      pre: string, v: string, rv: string, post: string, tail: string, rtail: string)
    requires Gap(pre) && Gap(post) && Becomes(v, rv) && Becomes(tail, rtail)
    ensures Becomes(pre + (v + (post + tail)), pre + (rv + (post + rtail)))
  {
    NoBackslashStays(pre);
    NoBackslashStays(post);
    Chain(post, post, tail, rtail);
    Chain(v, rv, post + tail, post + rtail);
    Chain(pre, pre, v + (post + tail), rv + (post + rtail));
  }

  lemma {:induction false} RepairFixesMembers(ms: Members)
    requires WfMembers(ms, false) && ms.Member?
    ensures Becomes(PrintMembers(ms), PrintMembers(FixMembers(ms)))
  {
    var Member(pre, key, mid, sep, v, post, rest) := ms;
    if rest.Member? { RepairFixesMembers(rest); }
    var more := if rest.NoMember? then "" else PrintMembers(rest);
    var moreFixed := if rest.NoMember? then "" else PrintMembers(FixMembers(rest));
    RepairFixesTail(rest.NoMember?, more, moreFixed);
    RepairFixesValue(v);
    RepairFixesStr(key);
    var item := sep + (Print(v) + (post + Tail(rest.NoMember?, more)));
    var itemFixed := sep + (Print(Fix(v)) + (post + Tail(rest.NoMember?, moreFixed)));
    RepairFixesItem(sep, Print(v), Print(Fix(v)), post, Tail(rest.NoMember?, more), Tail(rest.NoMember?, moreFixed));
    NoBackslashStays(":");
    Chain(":", ":", item, itemFixed);
    RepairFixesItem(pre, PrintStr(key), PrintStr(FixUnits(key)), mid, ":" + item, ":" + itemFixed);
  }

  // Repairing a whole text rewrites its unknown escapes and changes nothing else.
  lemma RepairFixesText(v: Value)
    requires Wf(v, false)
    ensures Repair(Print(v)) == Print(Fix(v))
  {
    RepairFixesValue(v);
    assert Print(v) + "" == Print(v);
    assert Repair("") == "";
    assert Repair(Print(v) + "") == Print(Fix(v)) + "";
  }

  lemma HexRunFits(us: seq<Unit>, n: nat)
    requires HexRun(us, n)
    ensures |us| >= n
  {
  }

  // What a literal says when unknown escapes are read as themselves, backslash included.
  datatype Piece = Char(c: char) | Control(name: char) | CodeUnit(hex: seq<Unit>)

  function Reads(us: seq<Unit>): seq<Piece> {
    if us == [] then []
    else if us[0] == Esc('u') && HexAhead(us) then
      assert |us| >= 5 by { HexRunFits(us[1..], 4); }
      [CodeUnit(us[1..5])] + Reads(us[5..])
    else (match us[0]
          case Plain(c) => [Char(c)]
          case Esc(c) =>
            if c in "\"\\/" then [Char(c)]
            else if c in KNOWN then [Control(c)]
            else [Char('\\'), Char(c)]) + Reads(us[1..])
  }

  lemma FixHead(us: seq<Unit>)
    requires us != [] && !(us[0].Esc? && us[0].c !in KNOWN)
    ensures FixUnits(us) != [] && FixUnits(us)[0] == us[0] && FixUnits(us)[1..] == FixUnits(us[1..])
  {
  }

  // The hex digits behind a \u are there after the repair exactly when they were before.
  lemma {:induction false} FixKeepsHex(us: seq<Unit>, n: nat)
    ensures HexRun(us, n) <==> HexRun(FixUnits(us), n)
    ensures HexRun(us, n) ==> |us| >= n && |FixUnits(us)| >= n
    ensures HexRun(us, n) ==> FixUnits(us)[..n] == us[..n] && FixUnits(us)[n..] == FixUnits(us[n..])
    decreases n
  {
    if n > 0 && us != [] {
      var r := FixUnits(us);
      if us[0].Plain? {
        FixHead(us);
        FixKeepsHex(us[1..], n - 1);
        if HexRun(us, n) {
          assert us[..n] == [us[0]] + us[1..][..n-1] && r[..n] == [r[0]] + r[1..][..n-1];
          assert us[1..][n-1..] == us[n..] && r[1..][n-1..] == r[n..];
        }
      } else {
        assert r[0].Esc?;
      }
    } else if n == 0 {
      assert FixUnits(us)[..0] == us[..0] && us[0..] == us;
    }
  }

  lemma FixKeepsHexAhead(us: seq<Unit>)
    requires us != [] && us[0] == Esc('u')
    ensures FixUnits(us) != []
    ensures HexAhead(us) <==> HexAhead(FixUnits(us))
    ensures HexAhead(us) ==> |us| >= 5 && |FixUnits(us)| >= 5
    ensures HexAhead(us) ==> FixUnits(us)[1..5] == us[1..5] && FixUnits(us)[5..] == FixUnits(us[5..])
  {
    FixHead(us);
    FixKeepsHex(us[1..], 4);
    if HexAhead(us) {
      var r := FixUnits(us);
      assert us[1..][..4] == us[1..5] && us[1..][4..] == us[5..];
      assert r[1..][..4] == r[1..5] && r[1..][4..] == r[5..];
    }
  }

  // The repair preserves what every literal says.
  lemma {:induction false} RepairKeepsMeaning(us: seq<Unit>)
    ensures Reads(FixUnits(us)) == Reads(us)
    decreases |us|
  {
    if us != [] {
      var r := FixUnits(us);
      if us[0].Esc? && us[0].c !in KNOWN {
        RepairKeepsMeaning(us[1..]);
        assert r[1..] == [Plain(us[0].c)] + FixUnits(us[1..]) && r[1..][1..] == FixUnits(us[1..]);
        assert Reads(r) == [Char('\\')] + ([Char(us[0].c)] + Reads(FixUnits(us[1..])));
      } else {
        FixHead(us);
        if us[0] == Esc('u') { FixKeepsHexAhead(us); }
        if us[0] == Esc('u') && HexAhead(us) { RepairKeepsMeaning(us[5..]); } else { RepairKeepsMeaning(us[1..]); }
      }
    }
  }

  // A literal whose only fault is escapes the repairer does not know.
  predicate OnlyEscapesWrong(us: seq<Unit>) {
    us == []
    || (match us[0]
     case Plain(c) => c != '"' && c != '\\' && c >= ' ' && OnlyEscapesWrong(us[1..])
     case Esc(c) => (if c == 'u' then HexAhead(us) else c >= ' ') && OnlyEscapesWrong(us[1..]))
  }

  // Those, and no others, are literals of RFC 8259 once repaired.
  lemma {:induction false} RepairedIsRfcIff(us: seq<Unit>)
    ensures RfcUnits(FixUnits(us)) <==> OnlyEscapesWrong(us)
  {
    if us != [] {
      RepairedIsRfcIff(us[1..]);
      var r := FixUnits(us);
      if us[0].Esc? && us[0].c !in KNOWN {
        assert r[1..] == [Plain(us[0].c)] + FixUnits(us[1..]) && r[1..][1..] == FixUnits(us[1..]);
      } else {
        FixHead(us);
        if us[0] == Esc('u') { FixKeepsHexAhead(us); }
      }
    }
  }
}
