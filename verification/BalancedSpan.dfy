// The balanced-span scanner: from an opening bracket, find the text up to the bracket that
// balances it, counting one bracket kind only and skipping string literals.

module BalancedSpan {
  import opened Common
  import opened JsonGrammar

  // What the scanner knows after reading some text.
  datatype Scan = Reading(depth: int, inStr: bool, esc: bool) | Shut

  function CloserOf(open: char): char { if open == '{' then '}' else ']' }

  function Step(open: char, st: Scan, ch: char): Scan {
    match st
    case Shut => Shut
    case Reading(depth, inStr, esc) =>
      if inStr then
        if esc then Reading(depth, true, false)
        else if ch == '\\' then Reading(depth, true, true)
        else Reading(depth, ch != '"', false)
      else if ch == '"' then Reading(depth, true, esc)
      else if ch == open then Reading(depth + 1, false, esc)
      else if ch == CloserOf(open) then (if depth == 1 then Shut else Reading(depth - 1, false, esc))
      else st
  }

  function After(open: char, st: Scan, t: string): Scan {
    if t == "" then st else Step(open, After(open, st, t[..|t|-1]), t[|t|-1])
  }

  const FRESH := Reading(0, false, false)

  // A balanced span: its last character, and no earlier one, closes its first.
  ghost predicate IsSpan(t: string) {
    t != "" && After(t[0], FRESH, t) == Shut && After(t[0], FRESH, t[..|t|-1]) != Shut
  }

  // The span opening at `start`, if any prefix of the rest balances.
  ghost predicate Unbalanced(s: string, start: nat)
    requires start < |s|
  {
    forall k | start <= k <= |s| :: After(s[start], FRESH, s[start..k]) != Shut
  }

  ghost function Span(s: string, start: nat): (r: Option<string>)
    requires start < |s|
    ensures r.None? <==> Unbalanced(s, start)
    ensures r.Some? ==> IsSpan(r.value) && r.value <= s[start..]
  {
    if Unbalanced(s, start) then None
    else
      var k :| start <= k <= |s| && After(s[start], FRESH, s[start..k]) == Shut;
      ShortestSpan(s, start, k);
      var e :| start < e <= |s| && IsSpan(s[start..e]);
      Some(s[start..e])
  }

  method BalancedSpan(s: string, start: nat) returns (r: Option<string>)
    requires start < |s|
    ensures r == Span(s, start)
  {
    var openCh := s[start];
    var closeCh := if openCh == '{' then '}' else ']';
    var depth, inStr, esc := 0, false, false;
    assert s[start..start] == "";
    for i := start to |s|
      invariant After(openCh, FRESH, s[start..i]) == Reading(depth, inStr, esc)
      invariant forall k | start <= k <= i :: After(openCh, FRESH, s[start..k]) != Shut
    {
      var ch := s[i];
      AfterSnoc(openCh, FRESH, s, start, i);
      if inStr {
        if esc {
          esc := false;
        } else if ch == '\\' {
          esc := true;
        } else if ch == '"' {
          inStr := false;
        }
      } else {
        if ch == '"' {
          inStr := true;
        } else if ch == openCh {
          depth := depth + 1;
        } else if ch == closeCh {
          depth := depth - 1;
          if depth == 0 {
            assert s[start..i+1][..i-start] == s[start..i];
            SpanIsUnique(s, start, s[start..i+1]);
            return Some(s[start..i+1]);
          }
        }
      }
    }
    return None;
  }

  // ---- reading text piece by piece ----

  lemma AfterSnoc(open: char, st: Scan, s: string, lo: nat, hi: nat)
    requires lo <= hi < |s|
    ensures After(open, st, s[lo..hi+1]) == Step(open, After(open, st, s[lo..hi]), s[hi])
  {
    assert s[lo..hi+1][..hi-lo] == s[lo..hi];
  }

  lemma {:induction false} AfterConcat(open: char, st: Scan, a: string, b: string)
    ensures After(open, st, a + b) == After(open, After(open, st, a), b)
  {
    if b == "" {
      assert a + b == a;
    } else {
      var b' := b[..|b|-1];
      AfterConcat(open, st, a, b');
      assert (a + b)[..|a+b|-1] == a + b';
    }
  }

  lemma AfterCons(open: char, st: Scan, c: char, b: string)
    ensures After(open, st, [c] + b) == After(open, Step(open, st, c), b)
  {
    AfterConcat(open, st, [c], b);
    assert [c][..0] == "";
  }

  lemma ShutStays(open: char, st: Scan, a: string, b: string)
    requires After(open, st, a) == Shut
    requires a <= b
    ensures After(open, st, b) == Shut
  {
    AfterConcat(open, st, a, b[|a|..]);
    ShutIsFinal(open, b[|a|..]);
    assert b == a + b[|a|..];
  }

  lemma {:induction false} ShutIsFinal(open: char, b: string)
    ensures After(open, Shut, b) == Shut
  {
    if b != "" { ShutIsFinal(open, b[..|b|-1]); }
  }

  // Some prefix balances, so a shortest one does.
  lemma {:induction false} ShortestSpan(s: string, start: nat, k: nat)
    requires start < |s| && start <= k <= |s|
    requires After(s[start], FRESH, s[start..k]) == Shut
    ensures exists e :: start < e <= |s| && IsSpan(s[start..e])
    decreases k
  {
    assert k > start;
    var t := s[start..k];
    assert t[..|t|-1] == s[start..k-1];
    if After(s[start], FRESH, s[start..k-1]) == Shut {
      ShortestSpan(s, start, k - 1);
    } else {
      assert IsSpan(s[start..k]);
    }
  }

  // Two spans from the same place are the same: one cannot be a proper prefix of the other.
  lemma SpansDoNotNest(a: string, b: string)
    requires IsSpan(a) && IsSpan(b) && a <= b
    ensures a == b
  {
    if |a| < |b| {
      assert a <= b[..|b|-1];
      ShutStays(a[0], FRESH, a, b[..|b|-1]);
    }
  }

  lemma SpanIsUnique(s: string, start: nat, t: string)
    requires start < |s| && IsSpan(t) && t <= s[start..]
    ensures Span(s, start) == Some(t)
  {
    assert s[start..start+|t|] == t;
    var sp := Span(s, start);
    assert sp.Some?;
    if |t| <= |sp.value| {
      assert t <= sp.value;
      SpansDoNotNest(t, sp.value);
    } else {
      assert sp.value <= t;
      SpansDoNotNest(sp.value, t);
    }
  }

  // ---- JSON texts are neutral ----

  // Outside strings at nesting depth d.
  function At(d: nat): Scan { Reading(d, false, false) }

  predicate IsOpener(c: char) { c == '{' || c == '[' }

  // Reading `t` inside an open bracket leaves the scanner where it was, whichever kind it counts.
  ghost predicate Neutral(open: char, d: nat, t: string) { After(open, At(d), t) == At(d) }

  lemma {:induction false} CalmIsNeutral(open: char, d: nat, t: string)
    requires IsOpener(open)
    requires forall i | 0 <= i < |t| :: t[i] !in "\"{}[]"
    ensures Neutral(open, d, t)
  {
    if t != "" { CalmIsNeutral(open, d, t[..|t|-1]); }
  }

  lemma Join(open: char, d: nat, a: string, b: string)
    requires Neutral(open, d, a) && Neutral(open, d, b)
    ensures Neutral(open, d, a + b)
  {
    AfterConcat(open, At(d), a, b);
  }

  lemma {:induction false} UnitsStayInside(open: char, d: nat, us: seq<Unit>)
    requires Quotable(us)
    ensures After(open, Reading(d, true, false), PrintUnits(us)) == Reading(d, true, false)
  {
    if us != [] {
      var inside := Reading(d, true, false);
      UnitsStayInside(open, d, us[1..]);
      match us[0]
      case Plain(c) => AfterCons(open, inside, c, PrintUnits(us[1..]));
      case Esc(c) =>
        AfterCons(open, inside, '\\', [c] + PrintUnits(us[1..]));
        AfterCons(open, Step(open, inside, '\\'), c, PrintUnits(us[1..]));
        assert ['\\', c] + PrintUnits(us[1..]) == ['\\'] + ([c] + PrintUnits(us[1..]));
    }
  }

  lemma StrIsNeutral(open: char, d: nat, us: seq<Unit>)
    requires IsOpener(open) && Quotable(us)
    ensures Neutral(open, d, PrintStr(us))
  {
    var body := PrintUnits(us);
    AfterCons(open, At(d), '"', body + "\"");
    AfterConcat(open, Reading(d, true, false), body, "\"");
    UnitsStayInside(open, d, us);
    assert PrintStr(us) == ['"'] + (body + "\"");
    AfterCons(open, Reading(d, true, false), '"', "");
    assert "\"" == ['"'] + "";
  }

  // Wrapping neutral text in a matching pair of brackets is neutral, for either counted kind.
  lemma WrapIsNeutral(open: char, d: nat, l: char, inner: string)
    requires IsOpener(open) && IsOpener(l) && d >= 1
    requires forall e: nat | e == d || e == d + 1 :: Neutral(open, e, inner)
    ensures Neutral(open, d, [l] + inner + [CloserOf(l)])
  {
    var r := [CloserOf(l)];
    AfterCons(open, At(d), l, inner + r);
    assert [l] + inner + r == [l] + (inner + r);
    var e := if l == open then d + 1 else d;
    assert Step(open, At(d), l) == At(e);
    assert Neutral(open, e, inner);
    AfterConcat(open, At(e), inner, r);
    assert Step(open, At(e), CloserOf(l)) == At(d);
    AfterCons(open, At(e), CloserOf(l), "");
    assert r == r + "";
  }

  predicate Calm(t: string) { forall i | 0 <= i < |t| :: t[i] !in "\"{}[]" }

  lemma CalmTogether(s: string, t: string)
    requires Calm(s) && Calm(t)
    ensures Calm(s + t)
  {
  }

  lemma DigitsAreCalm(ds: string)
    requires Digits(ds)
    ensures Calm(ds)
  {
  }

  lemma ExponentIsCalm(mark: char, sign: string, digits: string)
    requires mark in "eE" && sign in {"", "+", "-"} && Digits(digits)
    ensures Calm([mark] + sign + digits)
  {
    DigitsAreCalm(digits);
    CalmTogether([mark], sign);
    CalmTogether([mark] + sign, digits);
  }

  lemma FractionIsCalm(digits: string)
    requires Digits(digits)
    ensures Calm("." + digits)
  {
    DigitsAreCalm(digits);
  }

  lemma NumberIsCalm(v: Value)
    requires v.Number? && WfNumber(v)
    ensures Calm(PrintNumber(v))
  {
    var frac := match v.frac case None => "" case Some(ds) => "." + ds;
    var exp := match v.exp case None => "" case Some(e) => [e.mark] + e.sign + e.digits;
    var minus := if v.minus then "-" else "";
    if v.frac.Some? { FractionIsCalm(v.frac.value); }
    if v.exp.Some? { ExponentIsCalm(v.exp.value.mark, v.exp.value.sign, v.exp.value.digits); }
    DigitsAreCalm(v.whole);
    CalmTogether(minus, v.whole);
    CalmTogether(minus + v.whole, frac);
    CalmTogether(minus + v.whole + frac, exp);
  }

  lemma AtomIsNeutral(open: char, d: nat, v: Value)
    requires IsOpener(open) && Wf(v, false) && (v.Literal? || v.Number?)
    ensures Neutral(open, d, Print(v))
  {
    if v.Number? { NumberIsCalm(v); }
    CalmIsNeutral(open, d, Print(v));
  }

  lemma {:induction false} ValueIsNeutral(open: char, d: nat, v: Value)
    requires IsOpener(open) && d >= 1 && Wf(v, false)
    ensures Neutral(open, d, Print(v))
    decreases v
  {
    match v
    case Literal(_) => AtomIsNeutral(open, d, v);
    case Number(_, _, _, _) => AtomIsNeutral(open, d, v);
    case Str(us) => StrIsNeutral(open, d, us);
    case Arr(gap, es) =>
      ArrInside(open, d, v);
      ArrInside(open, d + 1, v);
      WrapIsNeutral(open, d, '[', if es.NoElem? then gap else PrintElems(es));
    case Obj(gap, ms) =>
      ObjInside(open, d, v);
      ObjInside(open, d + 1, v);
      WrapIsNeutral(open, d, '{', if ms.NoMember? then gap else PrintMembers(ms));
  }

  lemma {:induction false} ArrInside(open: char, d: nat, v: Value)
    requires IsOpener(open) && d >= 1 && Wf(v, false) && v.Arr?
    ensures Neutral(open, d, if v.elems.NoElem? then v.gap else PrintElems(v.elems))
    decreases v, 0
  {
    if v.elems.NoElem? { CalmIsNeutral(open, d, v.gap); } else { ElemsAreNeutral(open, d, v.elems); }
  }

  lemma {:induction false} ObjInside(open: char, d: nat, v: Value)
    requires IsOpener(open) && d >= 1 && Wf(v, false) && v.Obj?
    ensures Neutral(open, d, if v.members.NoMember? then v.gap else PrintMembers(v.members))
    decreases v, 0
  {
    if v.members.NoMember? { CalmIsNeutral(open, d, v.gap); } else { MembersAreNeutral(open, d, v.members); }
  }

  lemma {:induction false} ElemsAreNeutral(open: char, d: nat, es: Elems)
    requires IsOpener(open) && d >= 1 && WfElems(es, false) && es.Elem?
    ensures Neutral(open, d, PrintElems(es))
    decreases es
  {
    var Elem(pre, v, post, rest) := es;
    var tail := if rest.NoElem? then "" else "," + PrintElems(rest);
    TailIsNeutral(open, d, rest.NoElem?, if rest.NoElem? then "" else PrintElems(rest)) by {
      if rest.Elem? { ElemsAreNeutral(open, d, rest); }
    }
    CalmIsNeutral(open, d, post);
    Join(open, d, post, tail);
    ValueIsNeutral(open, d, v);
    Join(open, d, Print(v), post + tail);
    CalmIsNeutral(open, d, pre);
    Join(open, d, pre, Print(v) + (post + tail));
  }

  lemma TailIsNeutral(open: char, d: nat, last: bool, more: string)
    requires IsOpener(open) && (!last ==> Neutral(open, d, more))
    ensures Neutral(open, d, if last then "" else "," + more)
  {
    if !last {
      CalmIsNeutral(open, d, ",");
      Join(open, d, ",", more);
    }
  }

  lemma {:induction false} MembersAreNeutral(open: char, d: nat, ms: Members)
    requires IsOpener(open) && d >= 1 && WfMembers(ms, false) && ms.Member?
    ensures Neutral(open, d, PrintMembers(ms))
    decreases ms
  {
    var Member(pre, key, mid, sep, v, post, rest) := ms;
    var tail := if rest.NoMember? then "" else "," + PrintMembers(rest);
    TailIsNeutral(open, d, rest.NoMember?, if rest.NoMember? then "" else PrintMembers(rest)) by {
      if rest.Member? { MembersAreNeutral(open, d, rest); }
    }
    ValueIsNeutral(open, d, v);
    MemberIsNeutral(open, d, pre, key, mid, sep, Print(v), post, tail);
  }

  lemma MemberIsNeutral(
      open: char, d: nat, pre: string, key: seq<Unit>, mid: string, sep: string, value: string, post: string,
      tail: string)
    requires IsOpener(open) && Quotable(key) && Gap(pre) && Gap(mid) && Gap(sep) && Gap(post)
    requires Neutral(open, d, value) && Neutral(open, d, tail)
    ensures Neutral(open, d, pre + (PrintStr(key) + (mid + (":" + (sep + (value + (post + tail)))))))
  {
    CalmIsNeutral(open, d, pre);
    CalmIsNeutral(open, d, mid);
    CalmIsNeutral(open, d, ":");
    CalmIsNeutral(open, d, sep);
    CalmIsNeutral(open, d, post);
    StrIsNeutral(open, d, key);
    Join(open, d, post, tail);
    Join(open, d, value, post + tail);
    Join(open, d, sep, value + (post + tail));
    Join(open, d, ":", sep + (value + (post + tail)));
    Join(open, d, mid, ":" + (sep + (value + (post + tail))));
    Join(open, d, PrintStr(key), mid + (":" + (sep + (value + (post + tail)))));
    Join(open, d, pre, PrintStr(key) + (mid + (":" + (sep + (value + (post + tail))))));
  }

  // The text of any object or array is a balanced span ...
  lemma TextIsSpan(v: Value)
    requires Wf(v, false) && (v.Arr? || v.Obj?)
    ensures IsSpan(Print(v))
  {
    match v
    case Arr(gap, es) =>
      ArrInside('[', 1, v);
      BracketedIsSpan('[', if es.NoElem? then gap else PrintElems(es));
    case Obj(gap, ms) =>
      ObjInside('{', 1, v);
      BracketedIsSpan('{', if ms.NoMember? then gap else PrintMembers(ms));
  }

  lemma BracketedIsSpan(open: char, inner: string)
    requires IsOpener(open) && Neutral(open, 1, inner)
    ensures IsSpan([open] + inner + [CloserOf(open)])
  {
    var t := [open] + inner + [CloserOf(open)];
    AfterCons(open, FRESH, open, inner);
    assert t[..|t|-1] == [open] + inner;
  }

  // ... so the scanner, started at its first character inside any surrounding text, returns
  // exactly that text.
  lemma ScannerFindsText(p: string, v: Value, s: string)
    requires Wf(v, false) && (v.Arr? || v.Obj?)
    ensures Span(p + Print(v) + s, |p|) == Some(Print(v))
  {
    TextIsSpan(v);
    SpanIsFound(p, Print(v), s);
  }

  // So it does for every RFC 8259 text of an object or array, escapes and whitespace as they may be.
  lemma ScannerFindsRfcText(p: string, v: Value, s: string)
    requires Wf(v, true) && (v.Arr? || v.Obj?)
    ensures IsSpan(Print(v)) && Span(p + Print(v) + s, |p|) == Some(Print(v))
  {
    StrictIsLoose(v);
    TextIsSpan(v);
    SpanIsFound(p, Print(v), s);
  }

  lemma SpanIsFound(p: string, t: string, s: string)
    requires IsSpan(t)
    ensures Span(p + t + s, |p|) == Some(t)
  {
    assert (p + t + s)[|p|..] == t + s;
    SpanIsUnique(p + t + s, |p|, t);
  }
}
