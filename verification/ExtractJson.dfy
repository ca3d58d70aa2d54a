// Pulling a JSON object or array out of a model response: candidates from code fences, then the
// whole response; in each, balanced spans from left to right.

module ExtractJson {
  import opened Common
  import opened PyText
  import opened JsonGrammar
  import opened BalancedSpan
  import opened EscapeRepair

  datatype Json =
    | Null
    | Bool(b: bool)
    | Num(text: string)
    | Text(s: string)
    | List(items: seq<Json>)
    | Dict(entries: seq<(string, Json)>)

  // The library parser: a value, JSONDecodeError, or another error, such as for too deep a nesting.
  datatype Loaded = Parsed(value: Json) | DecodeFailed | Raised

  // A value, the last decode error raised again, ValueError("no JSON object found"), or another error
  // of the parser, which is not caught.
  datatype Outcome = Found(value: Json) | DecodeError | NoJson | ParserError

  const MAX_INPUT := 5_000_000

  // ---- fences ----

  function DropWord(t: string, isWord: char -> bool): string {
    if t != "" && isWord(t[0]) then DropWord(t[1..], isWord) else t
  }

  predicate FenceAt(t: string, i: nat) { i + 3 <= |t| && t[i..i+3] == "```" }

  function FindFence(t: string, i: nat): (j: nat)
    requires i <= |t|
    ensures i <= j <= |t| && (j == |t| || FenceAt(t, j))
    decreases |t| - i
  {
    if i == |t| || FenceAt(t, i) then i else FindFence(t, i + 1)
  }

  function SkipSpaces(t: string, i: nat): (j: nat)
    requires i <= |t|
    ensures i <= j <= |t|
    decreases |t| - i
  {
    if i < |t| && IsSpace(t[i]) then SkipSpaces(t, i + 1) else i
  }

  function BodyStart(t: string, i: nat): (j: nat)
    requires FenceAt(t, i)
    ensures i + 3 <= j <= |t|
  {
    SkipSpaces(t, if i + 7 <= |t| && t[i+3..i+7] == "json" then i + 7 else i + 3)
  }

  // The bodies of the fenced blocks, as the non-greedy fence pattern finds them.
  function FenceBodies(t: string): seq<string>
    decreases |t|
  {
    var j := FindFence(t, 0);
    if j == |t| then []
    else
      var b := BodyStart(t, j);
      var q := FindFence(t, b);
      if q == |t| then [] else [TrimEnd(t[b..q])] + FenceBodies(t[q+3..])
  }

  // The body when the whole text is one fenced block.
  function WholeFence(t: string): Option<string> {
    if |t| >= 6 && FenceAt(t, 0) && FenceAt(t, |t| - 3) && BodyStart(t, 0) <= |t| - 3
    then Some(TrimEnd(t[BodyStart(t, 0)..|t|-3]))
    else None
  }

  function Capped(text: string): string { if |text| > MAX_INPUT then text[..MAX_INPUT] else text }

  function FenceCandidates(text: string): seq<string> {
    var whole := WholeFence(TrimEnd(TrimStart(text)));
    (if whole.Some? then [whole.value] else []) + FenceBodies(text)
  }

  // Past an opening fence, does the response start with a brace?
  function Peek(t: string, isWord: char -> bool): string {
    if FenceAt(t, 0) then TrimStart(DropWord(t[3..], isWord)) else t
  }

  predicate WantDict(text: string, isWord: char -> bool) {
    var peek := Peek(TrimEnd(TrimStart(text)), isWord);
    peek != "" && peek[0] == '{'
  }

  // ---- what is scanned, and what is accepted ----

  // The spans tried in one candidate from position i on, left to right and disjoint.
  ghost function Spans(c: string, i: nat): seq<string>
    requires i <= |c|
    decreases |c| - i
  {
    if i == |c| then []
    else if !IsOpener(c[i]) then Spans(c, i + 1)
    else match Span(c, i)
      case None => Spans(c, i + 1)
      case Some(sp) => [sp] + Spans(c, i + |sp|)
  }

  ghost function AllSpans(cands: seq<string>): seq<string> {
    if cands == [] then [] else Spans(cands[0], 0) + AllSpans(cands[1..])
  }

  // What one span yields: parsed as it is, else parsed after a repair that changed something.
  function Decode(loads: string -> Loaded, span: string): Option<Json> {
    var l := if loads(span).DecodeFailed? && Repair(span) != span then loads(Repair(span)) else loads(span);
    if l.Parsed? && !l.value.Null? then Some(l.value) else None
  }

  // The parser raises another error, on the span or on its repair.
  predicate Breaks(loads: string -> Loaded, span: string) {
    loads(span).Raised? || (loads(span).DecodeFailed? && Repair(span) != span && loads(Repair(span)).Raised?)
  }

  predicate Accepted(loads: string -> Loaded, wantDict: bool, span: string) {
    var v := Decode(loads, span);
    v.Some? && !(wantDict && v.value.List?)
  }

  predicate Ends(loads: string -> Loaded, wantDict: bool, span: string) {
    Accepted(loads, wantDict, span) || Breaks(loads, span)
  }

  function EndOf(loads: string -> Loaded, span: string): Outcome {
    if Decode(loads, span).Some? then Found(Decode(loads, span).value) else ParserError
  }

  // What the first span comes to that is accepted or breaks the parser, if any is.
  function FirstHit(loads: string -> Loaded, wantDict: bool, spans: seq<string>): Option<Outcome> {
    if spans == [] then None
    else if Ends(loads, wantDict, spans[0]) then Some(EndOf(loads, spans[0]))
    else FirstHit(loads, wantDict, spans[1..])
  }

  // The first list among the spans, if any.
  function FirstList(loads: string -> Loaded, spans: seq<string>): Option<Json> {
    if spans == [] then None
    else
      var v := Decode(loads, spans[0]);
      if v.Some? && v.value.List? then v else FirstList(loads, spans[1..])
  }

  predicate SomeFails(loads: string -> Loaded, spans: seq<string>) {
    exists i | 0 <= i < |spans| :: loads(spans[i]).DecodeFailed?
  }

  ghost function Scanned(text: string): seq<string> {
    AllSpans(FenceCandidates(Capped(text)) + [Capped(text)])
  }

  ghost function Extracted(loads: string -> Loaded, isWord: char -> bool, text: string): Outcome {
    var want := WantDict(Capped(text), isWord);
    var spans := Scanned(text);
    if FirstHit(loads, want, spans).Some? then FirstHit(loads, want, spans).value
    else if want && FirstList(loads, spans).Some? then Found(FirstList(loads, spans).value)
    else if SomeFails(loads, spans) then DecodeError
    else NoJson
  }

  method Extract(response: string, loads: string -> Loaded, isWord: char -> bool) returns (r: Outcome)
    ensures r == Extracted(loads, isWord, response)
  {
    var text := Capped(response);
    var candidates := FenceCandidates(text) + [text];
    var wantDict := WantDict(text, isWord);
    var heldList: Option<Json> := None;
    var failed := false;
    ghost var spans := Scanned(response);
    var c := 0;
    assert candidates[0..] == candidates;
    while c < |candidates|
      invariant 0 <= c <= |candidates|
      invariant Pending(loads, wantDict, spans, AllSpans(candidates[c..]), heldList, failed)
    {
      assert candidates[c..][1..] == candidates[c+1..];
      var hit;
      hit, heldList, failed :=
        ScanCandidate(loads, wantDict, candidates[c], heldList, failed, spans, AllSpans(candidates[c+1..]));
      if hit.Some? { return hit.value; }
      c := c + 1;
    }
    assert candidates[c..] == [];
    if heldList != None { return Found(heldList.value); }
    return if failed then DecodeError else NoJson;
  }

  // One candidate: try its spans until one is accepted.
  method ScanCandidate(loads: string -> Loaded, wantDict: bool, cand: string, held: Option<Json>, err: bool,
                       ghost spans: seq<string>, ghost later: seq<string>)
    returns (hit: Option<Outcome>, heldList: Option<Json>, failed: bool)
    requires Pending(loads, wantDict, spans, Todo(cand, 0, later), held, err)
    ensures hit.Some? ==> FirstHit(loads, wantDict, spans) == hit
    ensures hit == None ==> Pending(loads, wantDict, spans, later, heldList, failed)
  {
    hit, heldList, failed := None, held, err;
    var i := 0;
    while i < |cand|
      invariant 0 <= i <= |cand| && hit == None
      invariant Pending(loads, wantDict, spans, Todo(cand, i, later), heldList, failed)
      decreases |cand| - i
    {
      var span := SpanAt(cand, i, later);
      if span == None {
        i := i + 1;
        continue;
      }
      hit, heldList, failed :=
        TrySpan(loads, wantDict, span.value, heldList, failed, spans, Todo(cand, i + |span.value|, later));
      if hit.Some? { return; }
      i := i + |span.value|;
    }
    TodoEnds(cand, later);
  }

  // The span at position i, if an opening bracket is there and something balances it.
  method SpanAt(cand: string, i: nat, ghost later: seq<string>) returns (span: Option<string>)
    requires i < |cand|
    ensures span == None ==> Todo(cand, i, later) == Todo(cand, i + 1, later)
    ensures span.Some? ==> 0 < |span.value| <= |cand| - i
    ensures span.Some? ==> Todo(cand, i, later) == [span.value] + Todo(cand, i + |span.value|, later)
  {
    if cand[i] != '{' && cand[i] != '[' {
      TodoStep(cand, i, later);
      return None;
    }
    span := BalancedSpan.BalancedSpan(cand, i);
    TodoStep(cand, i, later);
  }

  // One span: accepted, held back as a list, or passed over.
  method TrySpan(loads: string -> Loaded, wantDict: bool, sp: string, held: Option<Json>, err: bool,
                 ghost spans: seq<string>, ghost rest: seq<string>)
    returns (hit: Option<Outcome>, heldList: Option<Json>, failed: bool)
    requires Pending(loads, wantDict, spans, [sp] + rest, held, err)
    ensures hit.Some? ==> FirstHit(loads, wantDict, spans) == hit
    ensures hit == None ==> Pending(loads, wantDict, spans, rest, heldList, failed)
  {
    heldList := held;
    PendingStep(loads, wantDict, spans, sp, rest, held, err);
    var val, e, broken := DecodeSpan(loads, sp);
    failed := err || e;
    if broken { return Some(ParserError), heldList, failed; }
    if val == None { return None, heldList, failed; }
    if wantDict && val.value.List? {
      if heldList == None { heldList := val; }
      return None, heldList, failed;
    }
    return Some(Found(val.value)), heldList, failed;
  }

  // The spans still to be tried, in this candidate and in the later ones.
  ghost function Todo(cand: string, i: nat, later: seq<string>): seq<string>
    requires i <= |cand|
  {
    Spans(cand, i) + later
  }

  lemma TodoStep(cand: string, i: nat, later: seq<string>)
    requires i < |cand|
    ensures Todo(cand, i, later)
         == if IsOpener(cand[i]) && Span(cand, i).Some? then
              [Span(cand, i).value] + Todo(cand, i + |Span(cand, i).value|, later)
            else Todo(cand, i + 1, later)
  {
  }

  lemma TodoEnds(cand: string, later: seq<string>)
    ensures Todo(cand, |cand|, later) == later
  {
  }

  // Parse one span, and try once more with its escapes repaired.
  method DecodeSpan(loads: string -> Loaded, span: string) returns (val: Option<Json>, err: bool, broken: bool)
    ensures val == Decode(loads, span) && broken == Breaks(loads, span)
    ensures err == loads(span).DecodeFailed?
  {
    var loaded := loads(span);
    err := loaded.DecodeFailed?;
    if err {
      var repaired := RepairInvalidEscapes(span);
      if repaired != span { loaded := loads(repaired); }
    }
    broken := loaded.Raised?;
    val := if loaded.Parsed? && !loaded.value.Null? then Some(loaded.value) else None;
  }

  // Nothing accepted yet: what the spans say is what the loop remembers plus what `rest` says.
  ghost predicate Pending(loads: string -> Loaded, wantDict: bool, spans: seq<string>, rest: seq<string>,
                          held: Option<Json>, failed: bool) {
    && FirstHit(loads, wantDict, spans) == FirstHit(loads, wantDict, rest)
    && (wantDict ==> FirstList(loads, spans) == (if held.Some? then held else FirstList(loads, rest)))
    && (!wantDict ==> held == None)
    && (SomeFails(loads, spans) <==> failed || SomeFails(loads, rest))
  }

  lemma PendingStep(
      loads: string -> Loaded, wantDict: bool, spans: seq<string>, sp: string, rest: seq<string>,
      held: Option<Json>, failed: bool)
    requires Pending(loads, wantDict, spans, [sp] + rest, held, failed)
    ensures Ends(loads, wantDict, sp) ==> FirstHit(loads, wantDict, spans) == Some(EndOf(loads, sp))
    ensures !Ends(loads, wantDict, sp) ==>
      Pending(loads, wantDict, spans, rest,
              if held == None && wantDict && Decode(loads, sp).Some? then Decode(loads, sp) else held,
              failed || loads(sp).DecodeFailed?)
  {
    assert ([sp] + rest)[1..] == rest;
    assert SomeFails(loads, [sp] + rest) <==> loads(sp).DecodeFailed? || SomeFails(loads, rest) by {
      assert forall i | 0 <= i < |rest| :: rest[i] == ([sp] + rest)[i+1];
      if loads(sp).DecodeFailed? { assert ([sp] + rest)[0] == sp; }
    }
  }

  // ---- what the search guarantees ----

  lemma {:induction false} HitConcat(
      loads: string -> Loaded, w: bool, a: seq<string>, b: seq<string>)
    ensures FirstHit(loads, w, a + b)
        == (if FirstHit(loads, w, a).Some? then FirstHit(loads, w, a) else FirstHit(loads, w, b))
  {
    if a == [] {
      assert a + b == b;
    } else {
      assert (a + b)[1..] == a[1..] + b;
      HitConcat(loads, w, a[1..], b);
    }
  }

  lemma {:induction false} AllSpansConcat(a: seq<string>, b: seq<string>)
    ensures AllSpans(a + b) == AllSpans(a) + AllSpans(b)
  {
    if a == [] {
      assert a + b == b;
    } else {
      assert (a + b)[1..] == a[1..] + b;
      AllSpansConcat(a[1..], b);
    }
  }

  lemma {:induction false} HitIsFirst(
      loads: string -> Loaded, w: bool, spans: seq<string>)
    ensures FirstHit(loads, w, spans) == None <==> forall i | 0 <= i < |spans| :: !Ends(loads, w, spans[i])
    ensures FirstHit(loads, w, spans).Some? ==>
      exists i | 0 <= i < |spans| ::
        && Ends(loads, w, spans[i]) && FirstHit(loads, w, spans) == Some(EndOf(loads, spans[i]))
        && forall j | 0 <= j < i :: !Ends(loads, w, spans[j])
  {
    if spans != [] {
      HitIsFirst(loads, w, spans[1..]);
      assert forall i | 1 <= i < |spans| :: spans[i] == spans[1..][i-1];
      if Ends(loads, w, spans[0]) {
        assert FirstHit(loads, w, spans) == Some(EndOf(loads, spans[0]));
      } else if FirstHit(loads, w, spans[1..]).Some? {
        var i :| 0 <= i < |spans[1..]| && Ends(loads, w, spans[1..][i])
          && FirstHit(loads, w, spans[1..]) == Some(EndOf(loads, spans[1..][i]))
          && forall j | 0 <= j < i :: !Ends(loads, w, spans[1..][j]);
        assert Ends(loads, w, spans[i+1]);
      }
    }
  }

  // A response that starts with a brace yields a list only when no span of any candidate
  // parses, directly or repaired, to a dict.
  lemma ListOnlyAsLastResort(
      loads: string -> Loaded, isWord: char -> bool, text: string, k: nat)
    requires WantDict(Capped(text), isWord)
    requires Extracted(loads, isWord, text).Found? && Extracted(loads, isWord, text).value.List?
    requires k < |Scanned(text)|
    ensures Decode(loads, Scanned(text)[k]).Some? ==> Decode(loads, Scanned(text)[k]).value.List?
  {
    HitIsFirst(loads, true, Scanned(text));
  }

  // ---- prose, then a JSON text ----

  function FirstOpener(t: string): Option<char> {
    if t == "" then None else if IsOpener(t[0]) then Some(t[0]) else FirstOpener(t[1..])
  }

  predicate OpenerFree(p: string) { forall i | 0 <= i < |p| :: !IsOpener(p[i]) }

  lemma {:induction false} OpenerAfterProse(p: string, t: string)
    requires OpenerFree(p)
    ensures FirstOpener(p + t) == FirstOpener(t)
  {
    if p == "" {
      assert p + t == t;
    } else {
      assert (p + t)[1..] == p[1..] + t;
      OpenerAfterProse(p[1..], t);
    }
  }

  lemma {:induction false} TrimKeepsOpener(t: string)
    ensures FirstOpener(TrimStart(t)) == FirstOpener(t)
    ensures FirstOpener(TrimEnd(t)) == FirstOpener(t)
    decreases |t|
  {
    if t != "" {
      if IsSpace(t[0]) { TrimKeepsOpener(t[1..]); }
      if IsSpace(t[|t|-1]) {
        TrimKeepsOpener(t[..|t|-1]);
        assert t == t[..|t|-1] + [t[|t|-1]];
        OpenerSnoc(t[..|t|-1], t[|t|-1]);
      }
    }
  }

  lemma {:induction false} OpenerSnoc(t: string, c: char)
    requires !IsOpener(c)
    ensures FirstOpener(t + [c]) == FirstOpener(t)
  {
    if t == "" {
      assert t + [c] == [c] && [c][1..] == "";
    } else {
      assert (t + [c])[1..] == t[1..] + [c];
      OpenerSnoc(t[1..], c);
    }
  }

  lemma {:induction false} DropWordKeepsOpener(t: string, isWord: char -> bool)
    requires !isWord('{') && !isWord('[')
    ensures FirstOpener(DropWord(t, isWord)) == FirstOpener(t)
  {
    if t != "" && isWord(t[0]) { DropWordKeepsOpener(t[1..], isWord); }
  }

  // Only a response whose first bracket is a brace can ask for a dict.
  lemma WantedDictOpensWithBrace(text: string, isWord: char -> bool)
    requires !isWord('{') && !isWord('[')
    requires WantDict(text, isWord)
    ensures FirstOpener(text) == Some('{')
  {
    TrimKeepsOpener(text);
    TrimKeepsOpener(TrimStart(text));
    var t := TrimEnd(TrimStart(text));
    if FenceAt(t, 0) {
      assert t == "```" + t[3..];
      OpenerAfterProse("```", t[3..]);
      DropWordKeepsOpener(t[3..], isWord);
      TrimKeepsOpener(DropWord(t[3..], isWord));
    }
  }

  // Every opening bracket before position n is a stray one: nothing balances it.
  ghost predicate Strays(c: string, i: nat, n: nat)
    requires n <= |c|
  {
    forall k | i <= k < n && IsOpener(c[k]) :: Span(c, k) == None
  }

  lemma {:induction false} SpansAfterProse(c: string, i: nat, p: nat, t: string)
    requires i <= p <= |c| && Strays(c, i, p)
    requires t <= c[p..] && IsSpan(t) && IsOpener(t[0])
    ensures Spans(c, i) == [t] + Spans(c, p + |t|)
    decreases p - i
  {
    if i < p { SpansAfterProse(c, i + 1, p, t); } else { SpanIsUnique(c, p, t); }
  }

  // The response p + text of v + s, whose prose p has no opening bracket that anything balances,
  // yields the value of v exactly when no fenced block of the response is accepted before, or one is
  // with that value.  A list needs a response that does not start like an object.
  lemma ExtractsTheText(
      loads: string -> Loaded, isWord: char -> bool, p: string, v: Value, s: string, j: Json)
    requires Wf(v, false) && (v.Arr? || v.Obj?)
    requires Strays(p + Print(v) + s, 0, |p|)
    requires |p + Print(v) + s| <= MAX_INPUT
    requires Decode(loads, Print(v)) == Some(j) && (j.List? ==> !WantDict(p + Print(v) + s, isWord))
    ensures
      var text := p + Print(v) + s;
      var fenced := FirstHit(loads, WantDict(text, isWord), AllSpans(FenceCandidates(text)));
      Extracted(loads, isWord, text) == Found(j) <==> fenced in {None, Some(Found(j))}
  {
    var text := p + Print(v) + s;
    var want := WantDict(text, isWord);
    TextIsSpan(v);
    assert Ends(loads, want, Print(v)) && EndOf(loads, Print(v)) == Found(j);
    TextIsFirstSpan(p, Print(v), s);
    AllSpansConcat(FenceCandidates(text), [text]);
    HitConcat(loads, want, AllSpans(FenceCandidates(text)), AllSpans([text]));
  }

  lemma TextIsFirstSpan(p: string, t: string, s: string)
    requires Strays(p + t + s, 0, |p|) && IsSpan(t) && IsOpener(t[0])
    ensures AllSpans([p + t + s]) != [] && AllSpans([p + t + s])[0] == t
  {
    var text := p + t + s;
    assert text[|p|..] == t + s;
    SpansAfterProse(text, 0, |p|, t);
    assert AllSpans([text]) == Spans(text, 0) + AllSpans([text][1..]);
  }

  // When the response does start like an object, behind a stray brace, a list is held back: it comes
  // back exactly when no span is accepted and no fenced block holds another list before it.
  lemma ExtractsTheHeldList(
      loads: string -> Loaded, isWord: char -> bool, p: string, v: Value, s: string, j: Json)
    requires Wf(v, false) && v.Arr?
    requires Strays(p + Print(v) + s, 0, |p|)
    requires |p + Print(v) + s| <= MAX_INPUT
    requires Decode(loads, Print(v)) == Some(j) && j.List? && WantDict(p + Print(v) + s, isWord)
    ensures
      var text := p + Print(v) + s;
      Extracted(loads, isWord, text) == Found(j)
      <==> FirstHit(loads, true, Scanned(text)) == None
           && FirstList(loads, AllSpans(FenceCandidates(text))) in {None, Some(j)}
  {
    var text := p + Print(v) + s;
    TextIsSpan(v);
    TextIsFirstSpan(p, Print(v), s);
    AllSpansConcat(FenceCandidates(text), [text]);
    ListConcat(loads, AllSpans(FenceCandidates(text)), AllSpans([text]));
    HitIsNoList(loads, Scanned(text));
  }

  lemma {:induction false} ListConcat(loads: string -> Loaded, a: seq<string>, b: seq<string>)
    ensures FirstList(loads, a + b) == if FirstList(loads, a).Some? then FirstList(loads, a) else FirstList(loads, b)
  {
    if a == [] {
      assert a + b == b;
    } else {
      assert (a + b)[1..] == a[1..] + b;
      ListConcat(loads, a[1..], b);
    }
  }

  lemma {:induction false} HitIsNoList(loads: string -> Loaded, spans: seq<string>)
    ensures var hit := FirstHit(loads, true, spans); hit.Some? && hit.value.Found? ==> !hit.value.value.List?
  {
    if spans != [] { HitIsNoList(loads, spans[1..]); }
  }

  // Prose without any opening bracket has no stray one, and makes no list look like an object.
  lemma ProseIsSkipped(
      loads: string -> Loaded, isWord: char -> bool, p: string, v: Value, s: string, j: Json)
    requires OpenerFree(p) && Wf(v, false) && (v.Arr? || v.Obj?)
    requires |p + Print(v) + s| <= MAX_INPUT
    requires !isWord('{') && !isWord('[')
    requires Decode(loads, Print(v)) == Some(j) && (j.List? ==> v.Arr?)
    ensures
      var text := p + Print(v) + s;
      var fenced := FirstHit(loads, WantDict(text, isWord), AllSpans(FenceCandidates(text)));
      Extracted(loads, isWord, text) == Found(j) <==> fenced in {None, Some(Found(j))}
  {
    var text := p + Print(v) + s;
    assert forall k | 0 <= k < |p| :: text[k] == p[k];
    if WantDict(text, isWord) { ProseThenListIsNotWanted(p, v, s, isWord); }
    ExtractsTheText(loads, isWord, p, v, s, j);
  }

  lemma ProseThenListIsNotWanted(
      p: string, v: Value, s: string, isWord: char -> bool)
    requires OpenerFree(p) && Wf(v, false) && (v.Arr? || v.Obj?)
    requires !isWord('{') && !isWord('[') && WantDict(p + Print(v) + s, isWord)
    ensures !v.Arr?
  {
    var t := Print(v);
    WantedDictOpensWithBrace(p + t + s, isWord);
    assert p + t + s == p + (t + s);
    OpenerAfterProse(p, t + s);
    assert (t + s)[0] == t[0];
  }

  // A text the parser rejects only for escapes the repairer mends is read as its mended form.
  lemma ExtractsTheMendedText(
      loads: string -> Loaded, isWord: char -> bool, p: string, v: Value, s: string, j: Json)
    requires Wf(v, false) && (v.Arr? || v.Obj?)
    requires Strays(p + Print(v) + s, 0, |p|)
    requires |p + Print(v) + s| <= MAX_INPUT
    requires FenceCandidates(p + Print(v) + s) == []
    requires loads(Print(v)).DecodeFailed? && loads(Print(Fix(v))) == Parsed(j)
    requires !j.Null? && (j.List? ==> !WantDict(p + Print(v) + s, isWord))
    ensures Extracted(loads, isWord, p + Print(v) + s) == Found(j)
  {
    RepairFixesText(v);
    ExtractsTheText(loads, isWord, p, v, s, j);
  }

  // In particular a response without a second fence marker yields the value of v.
  lemma FenceFreeExtractsTheText(
      loads: string -> Loaded, isWord: char -> bool, p: string, v: Value, s: string, j: Json)
    requires Wf(v, false) && (v.Arr? || v.Obj?)
    requires Strays(p + Print(v) + s, 0, |p|)
    requires |p + Print(v) + s| <= MAX_INPUT
    requires Decode(loads, Print(v)) == Some(j) && (j.List? ==> !WantDict(p + Print(v) + s, isWord))
    requires forall i, k | 0 <= i && i + 3 <= k :: !(FenceAt(p + Print(v) + s, i) && FenceAt(p + Print(v) + s, k))
    ensures Extracted(loads, isWord, p + Print(v) + s) == Found(j)
  {
    var text := p + Print(v) + s;
    OneFenceNoCandidates(text);
    assert FirstHit(loads, WantDict(text, isWord), AllSpans(FenceCandidates(text))) == None;
    ExtractsTheText(loads, isWord, p, v, s, j);
  }

  lemma SlicedFence(text: string, u: string, at: nat, i: nat)
    requires at + |u| <= |text| && text[at..at+|u|] == u && FenceAt(u, i)
    ensures FenceAt(text, at + i)
  {
    assert forall k | 0 <= k < |u| :: u[k] == text[at+k];
    assert u[i..i+3] == text[at+i..at+i+3];
  }

  lemma OneFenceNoCandidates(text: string)
    requires forall i, k | 0 <= i && i + 3 <= k :: !(FenceAt(text, i) && FenceAt(text, k))
    ensures FenceCandidates(text) == []
  {
    var u := TrimEnd(TrimStart(text));
    if WholeFence(u).Some? {
      var at := TrimmedSlice(text);
      SlicedFence(text, u, at, 0);
      SlicedFence(text, u, at, |u| - 3);
    }
  }

  // The stripped text is a slice of the text.
  lemma TrimmedSlice(t: string) returns (at: nat)
    ensures var u := TrimEnd(TrimStart(t)); at + |u| <= |t| && t[at..at+|u|] == u
  {
    at := StartSlice(t);
    EndSlice(TrimStart(t));
  }

  lemma {:induction false} StartSlice(t: string) returns (at: nat)
    ensures at <= |t| && TrimStart(t) == t[at..]
  {
    if t != "" && IsSpace(t[0]) {
      at := StartSlice(t[1..]);
      at := at + 1;
    } else {
      at := 0;
    }
  }

  lemma {:induction false} EndSlice(t: string)
    ensures TrimEnd(t) <= t
  {
    if t != "" && IsSpace(t[|t|-1]) { EndSlice(t[..|t|-1]); }
  }

  // ---- fenced blocks ----

  // A text in which prose `a` is followed by a fenced block; `z` is whatever comes next.
  function Fenced(a: string, body: string, z: string): string { a + ("```" + (body + ("```" + z))) }

  predicate BacktickFree(t: string) { forall i | 0 <= i < |t| :: t[i] != '`' }

  lemma {:induction false} NextFence(t: string, i: nat, j: nat)
    requires i <= j && FenceAt(t, j) && forall k | i <= k < j :: t[k] != '`'
    ensures FindFence(t, i) == j
    decreases j - i
  {
    if i < j {
      assert t[i..i+3][0] == t[i];
      NextFence(t, i + 1, j);
    }
  }

  lemma NoFenceBefore(t: string, c: char)
    requires t != "" ==> t[0] == c
    requires c != '`'
    ensures !FenceAt(t, 0)
  {
    if |t| >= 3 { assert t[0..3][0] == c; }
  }

  // The first fenced block is the first candidate.
  lemma FencedIsFirstCandidate(a: string, body: string, z: string)
    requires BacktickFree(a) && BacktickFree(body) && a != "" && !IsSpace(a[0])
    requires body != "" && !IsSpace(body[0]) && !IsSpace(body[|body|-1]) && body[0] != 'j'
    ensures FenceCandidates(Fenced(a, body, z)) != [] && FenceCandidates(Fenced(a, body, z))[0] == body
  {
    var t := Fenced(a, body, z);
    NotWhole(t, a[0]);
    var j, b, q := |a|, |a| + 3, |a| + 3 + |body|;
    assert t[j..j+3] == "```" && t[q..q+3] == "```" && t[b..q] == body;
    assert forall k | 0 <= k < j :: t[k] == a[k];
    assert forall k | b <= k < q :: t[k] == body[k-b];
    FirstBody(t, j, q, body);
  }

  lemma NotWhole(t: string, c: char)
    requires t != "" && t[0] == c && !IsSpace(c) && c != '`'
    ensures WholeFence(TrimEnd(TrimStart(t))) == None
  {
    EndSlice(t);
    NoFenceBefore(TrimEnd(t), c);
  }

  lemma FirstBody(t: string, j: nat, q: nat, body: string)
    requires FenceAt(t, j) && j + 3 < q && FenceAt(t, q) && t[j+3..q] == body
    requires forall k | 0 <= k < j || j + 3 <= k < q :: t[k] != '`'
    requires !IsSpace(body[0]) && !IsSpace(body[|body|-1]) && body[0] != 'j'
    ensures FenceBodies(t) != [] && FenceBodies(t)[0] == body
  {
    NextFence(t, 0, j);
    BodyStartsAt(t, j, body[0]);
    NextFence(t, j + 3, q);
  }

  lemma BodyStartsAt(t: string, j: nat, c: char)
    requires FenceAt(t, j) && j + 3 < |t| && t[j+3] == c && c != 'j' && !IsSpace(c)
    ensures BodyStart(t, j) == j + 3
  {
    if j + 7 <= |t| { assert t[j+3..j+7][0] == c; }
  }

  // A fenced block that is one acceptable span wins, wherever it stands.
  lemma FencedBlockWins(
      loads: string -> Loaded, isWord: char -> bool, t: string, body: string)
    requires |t| <= MAX_INPUT
    requires FenceCandidates(t) != [] && FenceCandidates(t)[0] == body
    requires body != "" && IsOpener(body[0]) && IsSpan(body) && Accepted(loads, WantDict(t, isWord), body)
    ensures Extracted(loads, isWord, t) == Found(Decode(loads, body).value)
  {
    var cands := FenceCandidates(t) + [t];
    assert cands[0] == body && body[0..] == body;
    SpansAfterProse(body, 0, 0, body);
    assert AllSpans(cands)[0] == body;
  }

  // ---- a response that is one fenced block ----

  predicate AllSpace(s: string) { forall i | 0 <= i < |s| :: IsSpace(s[i]) }

  lemma {:induction false} TrimStartSpaces(s: string, t: string)
    requires AllSpace(s) && t != "" && !IsSpace(t[0])
    ensures TrimStart(s + t) == t
  {
    if s == "" {
      assert s + t == t;
    } else {
      assert (s + t)[1..] == s[1..] + t;
      TrimStartSpaces(s[1..], t);
    }
  }

  lemma {:induction false} TrimEndSpaces(t: string, s: string)
    requires AllSpace(s) && t != "" && !IsSpace(t[|t|-1])
    ensures TrimEnd(t + s) == t
  {
    if s == "" {
      assert t + s == t;
    } else {
      assert (t + s)[..|t+s|-1] == t + s[..|s|-1];
      TrimEndSpaces(t, s[..|s|-1]);
    }
  }

  lemma {:induction false} SkipGap(t: string, i: nat, j: nat)
    requires i <= j < |t| && AllSpace(t[i..j]) && !IsSpace(t[j])
    ensures SkipSpaces(t, i) == j
    decreases j - i
  {
    if i < j {
      assert t[i] == t[i..j][0];
      assert t[i+1..j] == t[i..j][1..];
      SkipGap(t, i + 1, j);
    }
  }

  // The block itself: the marker, "json" or nothing, blanks, the body, blanks, the marker.
  function Block(tag: string, gap: string, body: string, gap2: string): string {
    "```" + (tag + (gap + (body + (gap2 + "```"))))
  }

  lemma BlockParts(tag: string, gap: string, body: string, gap2: string)
    requires tag == "" || tag == "json"
    ensures var u, k := Block(tag, gap, body, gap2), 3 + |tag|;
      && |u| == k + |gap| + |body| + |gap2| + 3 && FenceAt(u, 0) && FenceAt(u, |u| - 3)
      && u[3..k] == tag && u[k..k+|gap|] == gap && u[k+|gap|..|u|-3] == body + gap2
  {
    var u, k := Block(tag, gap, body, gap2), 3 + |tag|;
    assert u[0..3] == "```" && u[|u|-3..|u|] == "```";
    assert u[3..k] == tag;
    assert u[k..k+|gap|] == gap;
    assert u[k+|gap|..|u|-3] == body + gap2;
  }

  lemma BlockIsWholeFence(tag: string, gap: string, body: string, gap2: string)
    requires (tag == "" || tag == "json") && AllSpace(gap) && AllSpace(gap2)
    requires body != "" && !IsSpace(body[0]) && body[0] != 'j' && !IsSpace(body[|body|-1])
    ensures WholeFence(Block(tag, gap, body, gap2)) == Some(body)
  {
    var u, k := Block(tag, gap, body, gap2), 3 + |tag|;
    BlockParts(tag, gap, body, gap2);
    assert u[k+|gap|] == u[k+|gap|..|u|-3][0] == body[0];
    if tag == "" {
      assert u[3] != 'j' by { if gap != "" { assert u[3] == u[3..3+|gap|][0]; } }
      if 7 <= |u| { assert u[3..7][0] == u[3]; }
    }
    SkipGap(u, k, k + |gap|);
    TrimEndSpaces(body, gap2);
  }

  lemma TextHasBrackets(v: Value)
    requires v.Arr? || v.Obj?
    ensures var t := Print(v);
      && |t| >= 2 && t[0] == (if v.Arr? then '[' else '{') && t[|t|-1] == (if v.Arr? then ']' else '}')
  {
  }

  // A response that is, but for blanks, one fenced block of the text of v yields v, whatever
  // backticks the string literals of v hold.
  lemma WholeFenceExtractsTheText(
      loads: string -> Loaded, isWord: char -> bool, lead: string, tag: string, gap: string, v: Value,
      gap2: string, trail: string, j: Json, text: string)
    requires text == lead + (Block(tag, gap, Print(v), gap2) + trail) && |text| <= MAX_INPUT
    requires AllSpace(lead) && AllSpace(gap) && AllSpace(gap2) && AllSpace(trail) && (tag == "" || tag == "json")
    requires Wf(v, false) && (v.Arr? || v.Obj?)
    requires !isWord('{') && !isWord('[')
    requires Decode(loads, Print(v)) == Some(j) && (j.List? ==> v.Arr?)
    ensures Extracted(loads, isWord, text) == Found(j)
  {
    TextHasBrackets(v);
    BlockIsFirstCandidate(lead, tag, gap, Print(v), gap2, trail, text);
    if WantDict(text, isWord) { FencedListIsNotWanted(isWord, lead, tag, gap, v, gap2, trail, text); }
    FencedTextWins(loads, isWord, v, j, text);
  }

  lemma FencedTextWins(
      loads: string -> Loaded, isWord: char -> bool, v: Value, j: Json, text: string)
    requires |text| <= MAX_INPUT && FenceCandidates(text) != [] && FenceCandidates(text)[0] == Print(v)
    requires Wf(v, false) && (v.Arr? || v.Obj?) && (WantDict(text, isWord) ==> !v.Arr?)
    requires Decode(loads, Print(v)) == Some(j) && (j.List? ==> v.Arr?)
    ensures Extracted(loads, isWord, text) == Found(j)
  {
    TextHasBrackets(v);
    TextIsSpan(v);
    FencedBlockWins(loads, isWord, text, Print(v));
  }

  lemma BlockIsFirstCandidate(
      lead: string, tag: string, gap: string, body: string, gap2: string, trail: string, text: string)
    requires text == lead + (Block(tag, gap, body, gap2) + trail)
    requires AllSpace(lead) && AllSpace(gap) && AllSpace(gap2) && AllSpace(trail) && (tag == "" || tag == "json")
    requires body != "" && !IsSpace(body[0]) && body[0] != 'j' && !IsSpace(body[|body|-1])
    ensures FenceCandidates(text) != [] && FenceCandidates(text)[0] == body
  {
    BlockParts(tag, gap, body, gap2);
    BlockIsStripped(lead, Block(tag, gap, body, gap2), trail);
    BlockIsWholeFence(tag, gap, body, gap2);
  }

  lemma BlockReassociated(
      lead: string, tag: string, gap: string, body: string, gap2: string, trail: string)
    ensures lead + (Block(tag, gap, body, gap2) + trail)
         == (lead + ("```" + (tag + gap))) + (body + (gap2 + ("```" + trail)))
  {
    assert Block(tag, gap, body, gap2) + trail == ("```" + (tag + gap)) + (body + (gap2 + ("```" + trail)));
  }

  lemma BeforeBodyIsOpenerFree(lead: string, tag: string, gap: string)
    requires AllSpace(lead) && AllSpace(gap) && (tag == "" || tag == "json")
    ensures OpenerFree(lead + ("```" + (tag + gap)))
  {
    assert OpenerFree(lead) && OpenerFree(tag) && OpenerFree(gap);
  }

  // The blanks around a block are stripped.
  lemma BlockIsStripped(lead: string, u: string, trail: string)
    requires AllSpace(lead) && AllSpace(trail) && |u| >= 6 && FenceAt(u, 0) && FenceAt(u, |u| - 3)
    ensures TrimEnd(TrimStart(lead + (u + trail))) == u
  {
    assert u[0] == u[0..3][0] == '`' && u[|u|-1] == u[|u|-3..|u|-3+3][2] == '`';
    TrimStartSpaces(lead, u + trail);
    TrimEndSpaces(u, trail);
  }

  lemma FencedListIsNotWanted(
      isWord: char -> bool, lead: string, tag: string, gap: string, v: Value, gap2: string, trail: string,
      text: string)
    requires text == lead + (Block(tag, gap, Print(v), gap2) + trail)
    requires AllSpace(lead) && AllSpace(gap) && (tag == "" || tag == "json")
    requires !isWord('{') && !isWord('[') && (v.Arr? || v.Obj?)
    requires WantDict(text, isWord)
    ensures !v.Arr?
  {
    var p, rest := lead + ("```" + (tag + gap)), Print(v) + (gap2 + ("```" + trail));
    TextHasBrackets(v);
    BlockReassociated(lead, tag, gap, Print(v), gap2, trail);
    BeforeBodyIsOpenerFree(lead, tag, gap);
    WantedDictOpensWithBrace(text, isWord);
    OpenerAfterProse(p, rest);
    assert rest[0] == Print(v)[0];
  }

  // ---- where the promise fails ----

  // The text {"":"```{}```"}, a JSON text whose string literal quotes a fenced block.
  const QUOTED := [Plain('`'), Plain('`'), Plain('`'), Plain('{'), Plain('}'), Plain('`'), Plain('`'), Plain('`')]
  const SHADOWED := Obj("", Member("", [], "", "", Str(QUOTED), "", NoMember))

  lemma {:induction false} PlainPrints(t: string, us: seq<Unit>)
    requires |t| == |us| && forall i | 0 <= i < |t| :: us[i] == Plain(t[i])
    ensures PrintUnits(us) == t
    ensures (forall i | 0 <= i < |t| :: t[i] !in "\"\\" && t[i] >= ' ') ==> RfcUnits(us)
  {
    if t != "" { PlainPrints(t[1..], us[1..]); }
  }

  lemma OneMemberPrints(key: seq<Unit>, us: seq<Unit>)
    ensures Print(Obj("", Member("", key, "", "", Str(us), "", NoMember)))
         == "{" + (PrintStr(key) + (":" + PrintStr(us))) + "}"
  {
    var k, v := PrintStr(key), PrintStr(us);
    assert v + ("" + "") == v && "" + v == v;
    assert "" + (":" + v) == ":" + v;
    assert "" + (k + (":" + v)) == k + (":" + v);
    assert PrintMembers(Member("", key, "", "", Str(us), "", NoMember)) == k + (":" + v);
  }

  lemma Regroup(x: string, l: string, k: string, q: string, b: string, z: string)
    ensures x + (l + (k + (":" + (q + b + q))) + z) == (x + l + k + ":" + q) + (b + (q + z))
  {
  }

  lemma QuotedPrints()
    ensures PrintUnits(QUOTED) == "```{}```" && RfcUnits(QUOTED)
  {
    PlainPrints("```{}```", QUOTED);
  }

  lemma ShadowedPrints()
    ensures Wf(SHADOWED, true)
    ensures "x" + Print(SHADOWED) == BEFORE + ("```{}```" + AFTER)
  {
    QuotedPrints();
    OneMemberPrints([], QUOTED);
    Regroup("x", "{", PrintStr([]), "\"", "```{}```", "}");
  }

  const BEFORE := "x" + "{" + PrintStr([]) + ":" + "\""
  const AFTER := "\"" + "}"

  lemma AroundIsPlain()
    ensures BacktickFree(BEFORE) && BEFORE != "" && !IsSpace(BEFORE[0]) && |BEFORE| + |AFTER| < 100
  {
    assert PrintStr([]) == "\"\"";
  }

  // After opener-free, fence-free prose the search returns the object quoted in the literal, not
  // the value of the text.
  lemma FencedLiteralShadowsTheText(loads: string -> Loaded, isWord: char -> bool)
    requires loads("{}") == Parsed(Dict([]))
    ensures Wf(SHADOWED, true) && OpenerFree("x") && !FenceAt("x", 0)
    ensures Extracted(loads, isWord, "x" + Print(SHADOWED)) == Found(Dict([]))
  {
    ShadowedPrints();
    AroundIsPlain();
    FencedEmptyDictWins(loads, isWord, BEFORE, AFTER);
    QuotedIsFenced(BEFORE, AFTER);
  }

  lemma QuotedIsFenced(a: string, z: string)
    ensures a + ("```{}```" + z) == Fenced(a, "{}", z)
  {
    assert "```{}```" + z == "```" + ("{}" + ("```" + z));
  }

  lemma FencedEmptyDictWins(
      loads: string -> Loaded, isWord: char -> bool, a: string, z: string)
    requires BacktickFree(a) && a != "" && !IsSpace(a[0]) && |a| + |z| < 100
    requires loads("{}") == Parsed(Dict([]))
    ensures Extracted(loads, isWord, Fenced(a, "{}", z)) == Found(Dict([]))
  {
    FencedIsFirstCandidate(a, "{}", z);
    TextIsSpan(Obj("", NoMember));
    assert Print(Obj("", NoMember)) == "{}";
    FencedBlockWins(loads, isWord, Fenced(a, "{}", z), "{}");
  }
}
