// A response with any number of fenced blocks: every block is tried, in the order it stands in.

module FencedBlocks {
  import opened Common
  import opened PyText
  import opened BalancedSpan
  import opened EscapeRepair
  import opened ExtractJson

  // Prose, and the block after it: the marker, "json" or nothing, blanks, the body, blanks, the marker.
  datatype Piece = Piece(prose: string, tag: string, gap: string, body: string, gap2: string)

  // The tag, the blanks and the body of a block can be told apart; the body may quote markers.
  predicate IsParted(p: Piece) {
    && AllSpace(p.gap) && AllSpace(p.gap2) && (p.tag == "" || p.tag == "json")
    && (p.tag == "" && p.gap == "" ==> !("json" <= p.body))
    && (p.body == "" || (!IsSpace(p.body[0]) && !IsSpace(p.body[|p.body|-1])))
  }

  predicate Fits(p: Piece) { BacktickFree(p.prose) && BacktickFree(p.body) && IsParted(p) }

  function BlockOf(p: Piece): string { Block(p.tag, p.gap, p.body, p.gap2) }

  function Response(ps: seq<Piece>, tail: string): string {
    if ps == [] then tail else ps[0].prose + (BlockOf(ps[0]) + Response(ps[1..], tail))
  }

  function Bodies(ps: seq<Piece>): (r: seq<string>)
    ensures |r| == |ps| && forall i | 0 <= i < |ps| :: r[i] == ps[i].body
  {
    if ps == [] then [] else [ps[0].body] + Bodies(ps[1..])
  }

  // Where the parts of a piece stand in a text that begins with it.
  datatype Place = Place(open: nat, gap: nat, body: nat, gap2: nat, close: nat)

  function PlaceOf(p: Piece): Place {
    var k := |p.prose| + 3 + |p.tag|;
    var s := k + |p.gap|;
    Place(|p.prose|, k, s, s + |p.body|, s + |p.body| + |p.gap2|)
  }

  ghost predicate Starts(t: string, p: Piece, at: Place) {
    && at.open + 3 <= at.gap <= |t|
    && t[..at.open] == p.prose && FenceAt(t, at.open) && t[at.open+3..at.gap] == p.tag
  }

  ghost predicate Goes(t: string, p: Piece, at: Place) {
    && at.gap <= at.body <= at.gap2 <= at.close && at.close + 3 <= |t|
    && t[at.gap..at.body] == p.gap && t[at.body..at.gap2] == p.body && t[at.gap2..at.close] == p.gap2
    && FenceAt(t, at.close)
  }

  lemma SliceAt(t: string, i: nat, a: string, b: string)
    requires i <= |t| && t[i..] == a + b
    ensures i + |a| <= |t| && t[i..i+|a|] == a && t[i+|a|..] == b
  {
    assert t[i..][..|a|] == a && t[i..][|a|..] == b;
  }

  lemma MarkerAt(t: string, i: nat, b: string)
    requires i <= |t| && t[i..] == "```" + b
    ensures FenceAt(t, i) && t[i+3..] == b
  {
    SliceAt(t, i, "```", b);
  }

  lemma BlockThen(p: Piece, z: string)
    ensures BlockOf(p) + z == "```" + (p.tag + (p.gap + (p.body + (p.gap2 + ("```" + z)))))
  {
  }

  lemma HeadStands(t: string, p: Piece, at: Place, rest: string, inside: string)
    requires t == p.prose + ("```" + rest) && rest == p.tag + inside
    requires at.open == |p.prose| && at.gap == at.open + 3 + |p.tag|
    ensures Starts(t, p, at) && t[at.gap..] == inside
  {
    MarkerAt(t, at.open, rest);
    SliceAt(t, at.open + 3, p.tag, inside);
  }

  lemma InsideStands(t: string, p: Piece, at: Place, rest: string, z: string)
    requires at.gap <= |t| && t[at.gap..] == p.gap + (p.body + rest) && rest == p.gap2 + ("```" + z)
    requires at.body == at.gap + |p.gap| && at.gap2 == at.body + |p.body| && at.close == at.gap2 + |p.gap2|
    ensures Goes(t, p, at) && t[at.close+3..] == z
  {
    SliceAt(t, at.gap, p.gap, p.body + rest);
    SliceAt(t, at.body, p.body, rest);
    EndStands(t, at.gap2, p.gap2, z);
  }

  lemma EndStands(t: string, i: nat, gap: string, z: string)
    requires i <= |t| && t[i..] == gap + ("```" + z)
    ensures i + |gap| <= |t| && t[i..i+|gap|] == gap && FenceAt(t, i + |gap|) && t[i+|gap|+3..] == z
  {
    SliceAt(t, i, gap, "```" + z);
    MarkerAt(t, i + |gap|, z);
  }

  lemma PieceStands(t: string, p: Piece, at: Place, z: string)
    requires t == p.prose + (BlockOf(p) + z) && at == PlaceOf(p)
    ensures Starts(t, p, at) && Goes(t, p, at) && t[at.close+3..] == z
  {
    var rest := p.gap2 + ("```" + z);
    BlockThen(p, z);
    HeadStands(t, p, at, p.tag + (p.gap + (p.body + rest)), p.gap + (p.body + rest));
    InsideStands(t, p, at, rest, z);
  }

  lemma NoBacktick(t: string, i: nat, j: nat)
    requires i <= j <= |t| && BacktickFree(t[i..j])
    ensures forall k | i <= k < j :: t[k] != '`'
  {
    forall k | i <= k < j ensures t[k] != '`' { assert t[k] == t[i..j][k-i]; }
  }

  lemma SpaceHasNoBacktick(s: string)
    requires AllSpace(s)
    ensures BacktickFree(s)
  {
  }

  // Only the tag reads as one.
  lemma TagIsRead(t: string, p: Piece, at: Place)
    requires Fits(p) && Starts(t, p, at) && Goes(t, p, at)
    ensures at.open + 7 <= |t| && t[at.open+3..at.open+7] == "json" <==> p.tag == "json"
  {
    var k := at.open + 3;
    if p.tag == "" && k + 4 <= |t| {
      assert t[k..k+4][0] == t[k];
      if p.gap != "" {
        assert t[k] == p.gap[0];
      } else if k + 4 <= at.gap2 {
        assert at.body == k;
        SliceStarts(t, k, at.gap2, 4);
      } else {
        NotJson(t, k, p, at);
        assert t[k..k+4][at.gap2-k] == t[at.gap2];
      }
    }
  }

  lemma SliceStarts(t: string, a: nat, b: nat, n: nat)
    requires a + n <= b <= |t|
    ensures t[a..b][..n] == t[a..a+n]
  {
  }

  lemma NotJson(t: string, k: nat, p: Piece, at: Place)
    requires Fits(p) && k <= at.gap2 < k + 4 <= |t| && at.gap2 <= at.close && FenceAt(t, at.close)
    requires t[at.gap2..at.close] == p.gap2
    ensures IsSpace(t[at.gap2]) || t[at.gap2] == '`'
  {
    if at.gap2 < at.close {
      assert t[at.gap2] == p.gap2[0];
    } else {
      assert t[at.close] == t[at.close..at.close+3][0];
    }
  }

  lemma GapIsSkipped(t: string, p: Piece, at: Place)
    requires Fits(p) && Goes(t, p, at)
    ensures SkipSpaces(t, at.gap) == if p.body == "" then at.close else at.body
  {
    assert t[at.close] == t[at.close..at.close+3][0] == '`';
    if p.body == "" {
      assert t[at.gap..at.close] == p.gap + p.gap2;
      SkipGap(t, at.gap, at.close);
    } else {
      assert t[at.body] == p.body[0];
      SkipGap(t, at.gap, at.body);
    }
  }

  lemma BodyEnds(t: string, p: Piece, at: Place)
    requires Fits(p) && Goes(t, p, at)
    ensures var b := if p.body == "" then at.close else at.body;
      FindFence(t, b) == at.close && TrimEnd(t[b..at.close]) == p.body
  {
    if p.body == "" {
      NextFence(t, at.close, at.close);
      assert t[at.close..at.close] == "";
    } else {
      SpaceHasNoBacktick(p.gap2);
      NoBacktick(t, at.body, at.gap2);
      NoBacktick(t, at.gap2, at.close);
      NextFence(t, at.body, at.close);
      assert t[at.body..at.close] == p.body + p.gap2;
      TrimEndSpaces(p.body, p.gap2);
    }
  }

  lemma BodyBegins(t: string, j: nat, tag: string, k: nat)
    requires FenceAt(t, j) && k == j + 3 + |tag| && (tag == "" || tag == "json")
    requires j + 7 <= |t| && t[j+3..j+7] == "json" <==> tag == "json"
    ensures k <= |t| && BodyStart(t, j) == SkipSpaces(t, k)
  {
  }

  // A block from j to q whose body begins at b.
  ghost predicate Reads(t: string, j: nat, b: nat, q: nat, body: string) {
    && FenceAt(t, j) && FindFence(t, 0) == j && BodyStart(t, j) == b
    && b <= q && FenceAt(t, q) && FindFence(t, b) == q && TrimEnd(t[b..q]) == body
  }

  lemma OneBody(t: string, j: nat, b: nat, q: nat, body: string, z: string)
    requires Reads(t, j, b, q, body) && t[q+3..] == z
    ensures FenceBodies(t) == [body] + FenceBodies(z)
  {
    assert j < |t| && q < |t|;
  }

  // The search for the marker, the tag, the blanks and the closing marker finds just the body.
  lemma PieceIsRead(t: string, p: Piece, at: Place)
    requires Fits(p) && Starts(t, p, at) && Goes(t, p, at)
    ensures Reads(t, at.open, if p.body == "" then at.close else at.body, at.close, p.body)
  {
    NoBacktick(t, 0, at.open);
    NextFence(t, 0, at.open);
    TagIsRead(t, p, at);
    BodyBegins(t, at.open, p.tag, at.gap);
    GapIsSkipped(t, p, at);
    BodyEnds(t, p, at);
  }

  lemma FirstPiece(p: Piece, z: string)
    requires Fits(p)
    ensures FenceBodies(p.prose + (BlockOf(p) + z)) == [p.body] + FenceBodies(z)
  {
    PieceStands(p.prose + (BlockOf(p) + z), p, PlaceOf(p), z);
    PieceGivesBody(p.prose + (BlockOf(p) + z), p, PlaceOf(p), z);
  }

  lemma PieceGivesBody(t: string, p: Piece, at: Place, z: string)
    requires Fits(p) && Starts(t, p, at) && Goes(t, p, at) && t[at.close+3..] == z
    ensures FenceBodies(t) == [p.body] + FenceBodies(z)
  {
    PieceIsRead(t, p, at);
    OneBody(t, at.open, if p.body == "" then at.close else at.body, at.close, p.body, z);
  }

  // Every body is found, in order.
  lemma {:induction false} BodiesAreFound(ps: seq<Piece>, tail: string)
    requires forall k | 0 <= k < |ps| :: Fits(ps[k])
    ensures FenceBodies(Response(ps, tail)) == Bodies(ps) + FenceBodies(tail)
  {
    if ps != [] {
      FirstPiece(ps[0], Response(ps[1..], tail));
      BodiesAreFound(ps[1..], tail);
      OneMore(ps[0].body, Bodies(ps[1..]), FenceBodies(tail));
    }
  }

  lemma OneMore(x: string, a: seq<string>, b: seq<string>)
    ensures [x] + (a + b) == [x] + a + b
  {
  }

  // The response is, but for blanks around it, the block of p.
  predicate IsBlockOf(text: string, lead: string, p: Piece, trail: string) {
    text == lead + (BlockOf(p) + trail) && AllSpace(lead) && AllSpace(trail) && IsParted(p)
  }

  // A candidate beside those of its blocks comes from such a reading.
  lemma WholeIsBlock(text: string, body: string) returns (lead: string, p: Piece, trail: string)
    requires WholeFence(TrimEnd(TrimStart(text))) == Some(body)
    ensures IsBlockOf(text, lead, p, trail) && p.body == body
  {
    var u := TrimEnd(TrimStart(text));
    lead := StartIsTrimmed(text);
    trail := EndIsTrimmed(TrimStart(text));
    p := BlockIsRead(u, body);
  }

  lemma BlockIsRead(u: string, body: string) returns (p: Piece)
    requires WholeFence(u) == Some(body)
    ensures u == BlockOf(p) && IsParted(p) && p.body == body
  {
    var n, k := |u| - 3, if 7 <= |u| && u[3..7] == "json" then 7 else 3;
    var b, gap2 := TrimmedBody(u, k, n, body);
    Reassembled(u, k, b, n);
    if k == 3 && b == 3 { BodyAtTag(u, body, n); }
    p := Piece("", u[3..k], u[k..b], body, gap2);
  }

  lemma TrimmedBody(u: string, k: nat, n: nat, body: string) returns (b: nat, gap2: string)
    requires k <= |u| && SkipSpaces(u, k) <= n <= |u| && body == TrimEnd(u[SkipSpaces(u, k)..n])
    ensures k <= b <= n && AllSpace(u[k..b]) && u[b..n] == body + gap2 && AllSpace(gap2)
    ensures body == "" || (!IsSpace(body[0]) && !IsSpace(body[|body|-1]))
  {
    b := SkipSpaces(u, k);
    BlanksAreSkipped(u, k);
    gap2 := EndIsTrimmed(u[b..n]);
    if body != "" { assert body[0] == u[b..n][0] == u[b]; }
  }

  lemma Reassembled(u: string, k: nat, b: nat, n: nat)
    requires 3 <= k <= b <= n == |u| - 3 && FenceAt(u, 0) && FenceAt(u, n)
    ensures forall body, gap2 | u[b..n] == body + gap2 :: u == Block(u[3..k], u[k..b], body, gap2)
  {
    assert u[0..3] == "```" && u[n..n+3] == u[n..];
    assert u == "```" + (u[3..k] + (u[k..b] + (u[b..n] + "```")));
    forall body, gap2 | u[b..n] == body + gap2 ensures u[b..n] + "```" == body + (gap2 + "```") {}
  }

  lemma BodyAtTag(u: string, body: string, n: nat)
    requires 3 <= n <= |u| && body <= u[3..n] && (7 <= |u| ==> u[3..7] != "json")
    ensures !("json" <= body)
  {
    if 7 <= n { assert u[3..7] == u[3..n][..4]; }
  }

  lemma {:induction false} BlanksAreSkipped(t: string, i: nat)
    requires i <= |t|
    ensures var j := SkipSpaces(t, i); AllSpace(t[i..j]) && (j < |t| ==> !IsSpace(t[j]))
    decreases |t| - i
  {
    if i < |t| && IsSpace(t[i]) {
      BlanksAreSkipped(t, i + 1);
      assert t[i..SkipSpaces(t, i)] == [t[i]] + t[i+1..SkipSpaces(t, i)];
    }
  }

  predicate AllPassed(loads: string -> Loaded, want: bool, spans: seq<string>) {
    forall i | 0 <= i < |spans| :: !Ends(loads, want, spans[i])
  }

  ghost predicate NothingIn(loads: string -> Loaded, want: bool, body: string) {
    AllPassed(loads, want, Spans(body, 0))
  }

  lemma {:induction false} FirstHitAt(
      loads: string -> Loaded, want: bool, spans: seq<string>, sp: string, more: seq<string>)
    requires AllPassed(loads, want, spans) && Accepted(loads, want, sp)
    ensures FirstHit(loads, want, spans + ([sp] + more)) == Some(Found(Decode(loads, sp).value))
  {
    if spans == [] {
      assert spans + ([sp] + more) == [sp] + more;
    } else {
      assert (spans + ([sp] + more))[1..] == spans[1..] + ([sp] + more);
      FirstHitAt(loads, want, spans[1..], sp, more);
    }
  }

  lemma {:induction false} NothingInAll(loads: string -> Loaded, want: bool, cands: seq<string>)
    requires forall i | 0 <= i < |cands| :: NothingIn(loads, want, cands[i])
    ensures AllPassed(loads, want, AllSpans(cands))
  {
    if cands != [] {
      assert forall i | 0 <= i < |cands[1..]| :: cands[1..][i] == cands[i+1];
      NothingInAll(loads, want, cands[1..]);
      assert NothingIn(loads, want, cands[0]);
      var a, b := Spans(cands[0], 0), AllSpans(cands[1..]);
      forall i | 0 <= i < |a + b| ensures !Ends(loads, want, (a + b)[i]) {
        if i >= |a| { assert (a + b)[i] == b[i-|a|]; }
      }
    }
  }

  // A candidate that is one acceptable span, after candidates with nothing in them, is the hit.
  lemma CandidateHits(loads: string -> Loaded, want: bool, before: seq<string>, body: string, after: seq<string>)
    requires forall i | 0 <= i < |before| :: NothingIn(loads, want, before[i])
    requires IsSpan(body) && IsOpener(body[0]) && Accepted(loads, want, body)
    ensures FirstHit(loads, want, AllSpans(before + ([body] + after))) == Some(Found(Decode(loads, body).value))
  {
    NothingInAll(loads, want, before);
    AllSpansConcat(before, [body] + after);
    assert body[0..] == body;
    SpansAfterProse(body, 0, 0, body);
    assert ([body] + after)[1..] == after;
    OneMore(body, Spans(body, |body|), AllSpans(after));
    FirstHitAt(loads, want, AllSpans(before), body, Spans(body, |body|) + AllSpans(after));
  }

  // Every fenced block of a response is tried, in order: when nothing in the blocks before it is
  // accepted, nor in the one block that the whole response may be read as, an acceptable block gives
  // the result, whatever prose stands between the blocks.
  lemma EveryBlockIsTried(
      loads: string -> Loaded, isWord: char -> bool, ps: seq<Piece>, tail: string, text: string, want: bool, k: nat)
    requires k < |ps| && text == Response(ps, tail) && |text| <= MAX_INPUT && want == WantDict(text, isWord)
    requires forall i | 0 <= i < |ps| :: Fits(ps[i])
    requires forall i | 0 <= i < k :: NothingIn(loads, want, ps[i].body)
    requires forall lead, p, trail | IsBlockOf(text, lead, p, trail) :: NothingIn(loads, want, p.body)
    requires IsSpan(ps[k].body) && IsOpener(ps[k].body[0]) && Accepted(loads, want, ps[k].body)
    ensures Extracted(loads, isWord, text) == Found(Decode(loads, ps[k].body).value)
  {
    BodiesAreFound(ps, tail);
    var whole := WholeCandidate(loads, want, text);
    var before, after := Bodies(ps)[..k], Bodies(ps)[k+1..] + (FenceBodies(tail) + [text]);
    Parted(whole, Bodies(ps), k, FenceBodies(tail), text);
    NothingInBoth(loads, want, whole, before);
    CandidateHits(loads, want, whole + before, ps[k].body, after);
    HitIsExtracted(loads, isWord, text, whole + before + ([ps[k].body] + after), Decode(loads, ps[k].body).value);
  }

  lemma WholeCandidate(loads: string -> Loaded, want: bool, text: string) returns (whole: seq<string>)
    requires forall lead, p, trail | IsBlockOf(text, lead, p, trail) :: NothingIn(loads, want, p.body)
    ensures FenceCandidates(text) == whole + FenceBodies(text)
    ensures forall i | 0 <= i < |whole| :: NothingIn(loads, want, whole[i])
  {
    whole := [];
    var w := WholeFence(TrimEnd(TrimStart(text)));
    if w.Some? {
      var lead, p, trail := WholeIsBlock(text, w.value);
      whole := [w.value];
    }
  }

  lemma NothingInBoth(loads: string -> Loaded, want: bool, a: seq<string>, b: seq<string>)
    requires forall i | 0 <= i < |a| :: NothingIn(loads, want, a[i])
    requires forall i | 0 <= i < |b| :: NothingIn(loads, want, b[i])
    ensures forall i | 0 <= i < |a + b| :: NothingIn(loads, want, (a + b)[i])
  {
  }

  lemma Parted(a: seq<string>, s: seq<string>, k: nat, r: seq<string>, x: string)
    requires k < |s|
    ensures a + (s + r) + [x] == a + s[..k] + ([s[k]] + (s[k+1..] + (r + [x])))
  {
  }

  lemma HitIsExtracted(loads: string -> Loaded, isWord: char -> bool, text: string, cands: seq<string>, j: Json)
    requires |text| <= MAX_INPUT && cands == FenceCandidates(text) + [text]
    requires FirstHit(loads, WantDict(text, isWord), AllSpans(cands)) == Some(Found(j))
    ensures Extracted(loads, isWord, text) == Found(j)
  {
  }

  // ---- what else decides the result ----

  lemma {:induction false} TrimEndStarts(t: string)
    ensures TrimEnd(t) <= t && forall i | |TrimEnd(t)| <= i < |t| :: IsSpace(t[i])
  {
    if t != "" && IsSpace(t[|t|-1]) { TrimEndStarts(t[..|t|-1]); }
  }

  // A response that starts with no marker wants an object exactly when it starts with a brace.
  lemma PlainWantsDict(isWord: char -> bool, lead: string, rest: string)
    requires AllSpace(lead) && rest != "" && !IsSpace(rest[0]) && rest[0] != '`'
    ensures WantDict(lead + rest, isWord) <==> rest[0] == '{'
  {
    TrimStartSpaces(lead, rest);
    TrimEndStarts(rest);
    NoFenceBefore(TrimEnd(rest), rest[0]);
  }

  predicate AllWord(word: string, isWord: char -> bool) { forall i | 0 <= i < |word| :: isWord(word[i]) }

  lemma {:induction false} WordIsDropped(word: string, rest: string, isWord: char -> bool)
    requires AllWord(word, isWord) && rest != "" && !isWord(rest[0])
    ensures DropWord(word + rest, isWord) == rest
  {
    if word == "" {
      assert word + rest == rest;
    } else {
      assert (word + rest)[1..] == word[1..] + rest;
      WordIsDropped(word[1..], rest, isWord);
    }
  }

  // One that starts with a marker, perhaps a word, and blanks, wants one when a brace comes next.
  lemma FencedWantsDict(isWord: char -> bool, lead: string, word: string, gap: string, rest: string)
    requires AllSpace(lead) && AllWord(word, isWord) && AllSpace(gap)
    requires rest != "" && !IsSpace(rest[0]) && !isWord((gap + rest)[0])
    ensures WantDict(lead + ("```" + (word + (gap + rest))), isWord) <==> rest[0] == '{'
  {
    var t := "```" + (word + (gap + rest));
    TrimStartSpaces(lead, t);
    var kept := TrimmedTail(rest);
    assert t == ("```" + (word + gap)) + rest;
    TrimEndKeeps("```" + (word + gap), rest);
    assert TrimEnd(t) == "```" + (word + (gap + kept));
    assert (gap + kept)[0] == (gap + rest)[0];
    PeekPastWord(isWord, word, gap, kept);
  }

  lemma PeekPastWord(isWord: char -> bool, word: string, gap: string, kept: string)
    requires AllWord(word, isWord) && AllSpace(gap)
    requires kept != "" && !IsSpace(kept[0]) && !isWord((gap + kept)[0])
    ensures Peek("```" + (word + (gap + kept)), isWord) == kept
  {
    var t := "```" + (word + (gap + kept));
    assert t[0..3] == "```" && t[3..] == word + (gap + kept);
    WordIsDropped(word, gap + kept, isWord);
    TrimStartSpaces(gap, kept);
  }

  lemma TrimmedTail(rest: string) returns (kept: string)
    requires rest != "" && !IsSpace(rest[0])
    ensures kept == TrimEnd(rest) && kept != "" && kept[0] == rest[0]
  {
    kept := TrimEnd(rest);
    TrimEndStarts(rest);
  }

  lemma {:induction false} TrimEndKeeps(a: string, b: string)
    requires b != "" && !IsSpace(b[0])
    ensures TrimEnd(a + b) == a + TrimEnd(b)
    decreases |b|
  {
    if IsSpace(b[|b|-1]) {
      assert (a + b)[..|a+b|-1] == a + b[..|b|-1];
      TrimEndKeeps(a, b[..|b|-1]);
    }
  }

  // Nothing past five million characters is looked at.
  lemma LongTextIsCut(loads: string -> Loaded, isWord: char -> bool, text: string)
    requires |text| > 5_000_000
    ensures Extracted(loads, isWord, text) == Extracted(loads, isWord, text[..5_000_000])
  {
    assert Capped(text) == Capped(text[..5_000_000]);
  }

  lemma {:induction false} NoSpansFrom(c: string, i: nat)
    requires i <= |c| && forall k | i <= k < |c| :: !IsOpener(c[k])
    ensures Spans(c, i) == []
    decreases |c| - i
  {
    if i < |c| { NoSpansFrom(c, i + 1); }
  }

  lemma OnlyTheText(text: string)
    requires |text| <= MAX_INPUT && FenceCandidates(text) == []
    ensures Scanned(text) == Spans(text, 0)
  {
    assert Capped(text) == text && [] + [text] == [text];
    assert AllSpans([text]) == Spans(text, 0) + AllSpans([text][1..]) && [text][1..] == [];
  }

  // Without a second marker, a response without an opening bracket holds no JSON.
  lemma NothingToFind(loads: string -> Loaded, isWord: char -> bool, text: string)
    requires |text| <= MAX_INPUT && OpenerFree(text)
    requires forall i, k | 0 <= i && i + 3 <= k :: !(FenceAt(text, i) && FenceAt(text, k))
    ensures Extracted(loads, isWord, text) == NoJson
  {
    OneFenceNoCandidates(text);
    NoSpansFrom(text, 0);
    OnlyTheText(text);
  }

  // Of a response that is the text of a value, and that the parser cannot read even when mended, the
  // decode error is raised again; another error of the parser is not caught.
  lemma UnreadableIsRaised(loads: string -> Loaded, isWord: char -> bool, p: string, t: string, s: string)
    requires OpenerFree(p) && OpenerFree(s) && IsSpan(t) && IsOpener(t[0]) && |p + t + s| <= MAX_INPUT
    requires FenceCandidates(p + t + s) == []
    ensures loads(t).Raised? || (loads(t).DecodeFailed? && Repair(t) != t && loads(Repair(t)).Raised?) ==>
      Extracted(loads, isWord, p + t + s) == ParserError
    ensures loads(t).DecodeFailed? && (Repair(t) == t || loads(Repair(t)).DecodeFailed?) ==>
      Extracted(loads, isWord, p + t + s) == DecodeError
  {
    SpansAmid(p, t, s);
    OnlyTheText(p + t + s);
    OneSpan(loads, WantDict(p + t + s, isWord), t);
  }

  lemma SpansAmid(p: string, t: string, s: string)
    requires OpenerFree(p) && OpenerFree(s) && IsSpan(t) && IsOpener(t[0])
    ensures Spans(p + t + s, 0) == [t]
  {
    var text := p + t + s;
    assert text[|p|..] == t + s && forall k | 0 <= k < |p| :: text[k] == p[k];
    SpansAfterProse(text, 0, |p|, t);
    assert forall k | |p| + |t| <= k < |text| :: text[k] == s[k-|p|-|t|];
    NoSpansFrom(text, |p| + |t|);
  }

  lemma OneSpan(loads: string -> Loaded, want: bool, t: string)
    ensures FirstHit(loads, want, [t]) == if Ends(loads, want, t) then Some(EndOf(loads, t)) else None
    ensures Decode(loads, t).None? ==> FirstList(loads, [t]).None?
    ensures SomeFails(loads, [t]) <==> loads(t).DecodeFailed?
  {
    var ts := [t];
    assert ts[1..] == [] && ts[0] == t;
    assert FirstHit(loads, want, ts[1..]) == None && FirstList(loads, ts[1..]) == None;
  }
}
