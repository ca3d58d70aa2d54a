// Backfilling CWE lines into a findings report, line by line, and rewriting the file in place.
// What the regular expressions say about a line is its kind.

module Backfill {
  import opened Common
  import opened ReportFile

  datatype Kind =
    | Header(title: string)      // "### 1. [HIGH] title"
    | Stop                       // "## ", "#### " or "---"
    | Cwe(id: string)            // "**CWE:** ... CWE-89 ...", the id in upper case
    | Class(category: string)    // "**Class:** `category`"
    | Blank
    | Other

  datatype Rules = Rules(
    kind: string -> Kind,
    derive: (string, Option<string>) -> Option<string>,   // title, category -> CWE
    isId: string -> bool,
    classLine: string -> string,
    cweLine: string -> string)

  // The lines written are of the kinds they are meant to be.
  ghost predicate Sound(e: Rules) {
    && (forall l :: e.kind(l) == Blank <==> l == "")
    && (forall l | e.kind(l).Cwe? :: e.isId(e.kind(l).id))
    && (forall t, c | e.derive(t, c).Some? :: e.isId(e.derive(t, c).value))
    && (forall id | e.isId(id) :: e.kind(e.cweLine(id)) == Cwe(id) && e.kind(e.classLine(id)).Class?)
  }

  // ---- the header block of a finding ----

  // How far the block reaches, and its first Class and first CWE line.
  datatype Block = Block(n: nat, classAt: Option<nat>, cweAt: Option<nat>)

  predicate Ends(e: Rules, lines: seq<string>, n: nat) {
    n >= |lines| || e.kind(lines[n]).Header? || e.kind(lines[n]).Stop?
  }

  predicate FirstClass(e: Rules, lines: seq<string>, n: nat, at: Option<nat>)
    requires n <= |lines|
  {
    match at
    case None => forall k | 0 <= k < n :: !e.kind(lines[k]).Class?
    case Some(i) => i < n && e.kind(lines[i]).Class? && forall k | 0 <= k < i :: !e.kind(lines[k]).Class?
  }

  predicate FirstCwe(e: Rules, lines: seq<string>, n: nat, at: Option<nat>)
    requires n <= |lines|
  {
    match at
    case None => forall k | 0 <= k < n :: !e.kind(lines[k]).Cwe?
    case Some(i) => i < n && e.kind(lines[i]).Cwe? && forall k | 0 <= k < i :: !e.kind(lines[k]).Cwe?
  }

  // Inside the block: no heading, and no blank line after the Class line.
  predicate Inside(e: Rules, lines: seq<string>, n: nat, classAt: Option<nat>)
    requires n <= |lines|
  {
    && (forall k | 0 <= k < n :: !Ends(e, lines, k))
    && (classAt.Some? ==> forall k | classAt.value < k < n :: e.kind(lines[k]) != Blank)
  }

  // The block runs to the first heading, or past the first blank line that follows a Class line.
  predicate IsBlock(e: Rules, lines: seq<string>, b: Block) {
    && b.n <= |lines|
    && FirstClass(e, lines, b.n, b.classAt) && FirstCwe(e, lines, b.n, b.cweAt)
    && ((Inside(e, lines, b.n, b.classAt) && Ends(e, lines, b.n))
        || (b.classAt.Some? && b.classAt.value < b.n - 1 && Inside(e, lines, b.n - 1, b.classAt)
            && e.kind(lines[b.n-1]) == Blank))
  }

  // It holds no heading nor other stop, and no blank line but the last below a Class line; there it
  // ends, or else at the next heading or stop.
  lemma BlockIs(e: Rules, lines: seq<string>, b: Block)
    requires IsBlock(e, lines, b)
    ensures forall k | 0 <= k < b.n :: !e.kind(lines[k]).Header? && !e.kind(lines[k]).Stop?
    ensures forall i, k | 0 <= i < k < b.n - 1 && e.kind(lines[i]).Class? :: e.kind(lines[k]) != Blank
    ensures b.n == |lines| || e.kind(lines[b.n]).Header? || e.kind(lines[b.n]).Stop?
      || (b.n > 0 && e.kind(lines[b.n-1]) == Blank && exists i | 0 <= i < b.n - 1 :: e.kind(lines[i]).Class?)
  {
    forall k | 0 <= k < b.n ensures !e.kind(lines[k]).Header? && !e.kind(lines[k]).Stop? {
      if Inside(e, lines, b.n, b.classAt) || k < b.n - 1 { assert !Ends(e, lines, k); }
    }
  }

  // The first Class and the first CWE line in it are noted.
  lemma FirstAreNoted(e: Rules, lines: seq<string>, b: Block, i: nat)
    requires IsBlock(e, lines, b) && i < b.n
    ensures b.classAt == Some(i) <==> e.kind(lines[i]).Class? && forall k | 0 <= k < i :: !e.kind(lines[k]).Class?
    ensures b.cweAt == Some(i) <==> e.kind(lines[i]).Cwe? && forall k | 0 <= k < i :: !e.kind(lines[k]).Cwe?
  {
    if b.classAt.Some? { assert e.kind(lines[b.classAt.value]).Class?; }
    if b.cweAt.Some? { assert e.kind(lines[b.cweAt.value]).Cwe?; }
  }

  lemma BlockIsUnique(e: Rules, lines: seq<string>, b: Block, c: Block)
    requires IsBlock(e, lines, b) && IsBlock(e, lines, c)
    ensures b == c
  {
    if b.n < c.n { NoLongerBlock(e, lines, b, c); }
    if c.n < b.n { NoLongerBlock(e, lines, c, b); }
    if b.classAt.Some? && c.classAt.Some? { assert b.classAt == c.classAt; }
    if b.cweAt.Some? && c.cweAt.Some? { assert b.cweAt == c.cweAt; }
  }

  lemma NoLongerBlock(e: Rules, lines: seq<string>, b: Block, c: Block)
    requires IsBlock(e, lines, b) && IsBlock(e, lines, c)
    ensures b.n >= c.n
  {
  }

  // The scan of the lines under a heading.
  function BlockFrom(e: Rules, lines: seq<string>, j: nat, classAt: Option<nat>, cweAt: Option<nat>): (b: Block)
    requires j <= |lines| && Inside(e, lines, j, classAt)
    requires FirstClass(e, lines, j, classAt) && FirstCwe(e, lines, j, cweAt)
    ensures IsBlock(e, lines, b)
    decreases |lines| - j
  {
    if Ends(e, lines, j) then Block(j, classAt, cweAt)
    else if e.kind(lines[j]) == Blank && classAt.Some? then Block(j + 1, classAt, cweAt)
    else BlockFrom(e, lines, j + 1, if e.kind(lines[j]).Class? && classAt == None then Some(j) else classAt,
                   if e.kind(lines[j]).Cwe? && cweAt == None then Some(j) else cweAt)
  }

  function BlockOf(e: Rules, lines: seq<string>): (b: Block)
    ensures IsBlock(e, lines, b)
  {
    BlockFrom(e, lines, 0, None, None)
  }

  // ---- what becomes of a block ----

  function CweOf(e: Rules, title: string, lines: seq<string>, b: Block): Option<string>
    requires IsBlock(e, lines, b)
  {
    if b.cweAt.Some? then Some(e.kind(lines[b.cweAt.value]).id)
    else e.derive(title, if b.classAt.Some? then Some(e.kind(lines[b.classAt.value]).category) else None)
  }

  function WithClass(e: Rules, lines: seq<string>, b: Block, id: string): (r: seq<string>)
    requires IsBlock(e, lines, b)
    ensures |r| == b.n
  {
    if b.classAt.Some? then lines[..b.n][b.classAt.value := e.classLine(id)] else lines[..b.n]
  }

  // Where a new CWE line goes: under the Class line, or at the end of the block.
  function Anchor(b: Block): nat { if b.classAt.Some? then b.classAt.value + 1 else b.n }

  function Rewritten(e: Rules, title: string, lines: seq<string>, b: Block): seq<string>
    requires IsBlock(e, lines, b)
  {
    match CweOf(e, title, lines, b)
    case None => lines[..b.n]
    case Some(id) =>
      var r := WithClass(e, lines, b, id);
      if b.cweAt.Some? then r[b.cweAt.value := e.cweLine(id)]
      else r[..Anchor(b)] + [e.cweLine(id)] + r[Anchor(b)..]
  }

  // The report with every finding's block rewritten.
  function Filled(e: Rules, src: seq<string>): (r: seq<string>)
    ensures src != [] ==> r != [] && r[0] == src[0]
    ensures src == [] ==> r == []
    decreases |src|
  {
    if src == [] then []
    else match e.kind(src[0])
      case Header(title) =>
        var b := BlockOf(e, src[1..]);
        [src[0]] + Rewritten(e, title, src[1..], b) + Filled(e, src[1..][b.n..])
      case _ => [src[0]] + Filled(e, src[1..])
  }

  // ---- running it twice ----

  // The block of the rewritten lines.
  function BlockAfter(e: Rules, title: string, lines: seq<string>, b: Block): Block
    requires IsBlock(e, lines, b)
  {
    if CweOf(e, title, lines, b) == None || b.cweAt.Some? then b
    else Block(b.n + 1, b.classAt, Some(Anchor(b)))
  }

  lemma BlockWhenKept(
      e: Rules, lines: seq<string>, b: Block, more: seq<string>, tail: seq<string>)
    requires Sound(e) && IsBlock(e, lines, b) && |more| == b.n
    requires forall k | 0 <= k < b.n :: more[k] == lines[k] || SameKind(e, lines[k], more[k])
    requires tail == [] <==> lines[b.n..] == []
    requires tail != [] ==> tail[0] == lines[b.n]
    ensures IsBlock(e, more + tail, b)
  {
    var next := more + tail;
    assert forall k | 0 <= k < b.n :: next[k] == more[k];
    assert b.n < |lines| ==> next[b.n] == lines[b.n];
    assert forall k | 0 <= k < b.n :: SameKind(e, lines[k], next[k]);
    assert Ends(e, lines, b.n) ==> Ends(e, next, b.n);
    assert forall k | 0 <= k < b.n :: Ends(e, lines, k) == Ends(e, next, k);
  }

  predicate SameKind(e: Rules, l: string, m: string) {
    l == m || (e.kind(l).Class? && e.kind(m).Class?) || (e.kind(l).Cwe? && e.kind(m).Cwe?)
  }

  lemma BlockWhenInserted(
      e: Rules, lines: seq<string>, b: Block, at: nat, l: string)
    requires IsBlock(e, lines, b) && b.cweAt == None && e.kind(l).Cwe? && at == Anchor(b)
    ensures IsBlock(e, lines[..at] + [l] + lines[at..], Block(b.n + 1, b.classAt, Some(at)))
  {
    var next := lines[..at] + [l] + lines[at..];
    assert forall k | 0 <= k < at :: next[k] == lines[k];
    assert next[at] == l;
    assert forall k | at <= k < |lines| :: next[k+1] == lines[k];
    assert forall k | 0 <= k < at :: Ends(e, lines, k) == Ends(e, next, k);
    assert forall k | at <= k <= |lines| :: Ends(e, lines, k) == Ends(e, next, k + 1);
    assert forall k | at < k <= |lines| :: !Ends(e, lines, k - 1) ==> !Ends(e, next, k);
    InsertedInside(e, lines, next, b, at);
  }

  lemma InsertedInside(
      e: Rules, lines: seq<string>, next: seq<string>, b: Block, at: nat)
    requires IsBlock(e, lines, b) && at == Anchor(b) && at <= |lines| && |next| == |lines| + 1
    requires forall k | 0 <= k < at :: next[k] == lines[k]
    requires e.kind(next[at]).Cwe?
    requires forall k | at < k <= |lines| :: next[k] == lines[k-1]
    ensures forall m: nat | at <= m <= b.n && Inside(e, lines, m, b.classAt) :: Inside(e, next, m + 1, b.classAt)
  {
    forall m: nat | at <= m <= b.n && Inside(e, lines, m, b.classAt) ensures Inside(e, next, m + 1, b.classAt) {
      forall k | 0 <= k < m + 1 ensures !Ends(e, next, k) {
        if k < at { assert !Ends(e, lines, k); } else if k > at { assert !Ends(e, lines, k - 1); }
      }
    }
  }

  lemma Spliced(r: seq<string>, at: nat, l: string, tail: seq<string>)
    requires at <= |r|
    ensures (r + tail)[..at] + [l] + (r + tail)[at..] == r[..at] + [l] + r[at..] + tail
  {
    assert (r + tail)[..at] == r[..at] && (r + tail)[at..] == r[at..] + tail;
  }

  lemma BlockOfRewritten(
      e: Rules, title: string, lines: seq<string>, b: Block, tail: seq<string>)
    requires Sound(e) && IsBlock(e, lines, b)
    requires tail == [] <==> lines[b.n..] == []
    requires tail != [] ==> tail[0] == lines[b.n]
    ensures IsBlock(e, Rewritten(e, title, lines, b) + tail, BlockAfter(e, title, lines, b))
  {
    var cwe := CweOf(e, title, lines, b);
    if cwe == None || b.cweAt.Some? {
      BlockWhenKept(e, lines, b, Rewritten(e, title, lines, b), tail);
    } else {
      var r := WithClass(e, lines, b, cwe.value);
      BlockWhenKept(e, lines, b, r, tail);
      BlockWithLine(e, r, tail, b, e.cweLine(cwe.value));
    }
  }

  lemma BlockWithLine(
      e: Rules, r: seq<string>, tail: seq<string>, b: Block, l: string)
    requires IsBlock(e, r + tail, b) && b.cweAt == None && e.kind(l).Cwe? && |r| == b.n
    ensures IsBlock(e, r[..Anchor(b)] + [l] + r[Anchor(b)..] + tail, Block(b.n + 1, b.classAt, Some(Anchor(b))))
  {
    BlockWhenInserted(e, r + tail, b, Anchor(b), l);
    Spliced(r, Anchor(b), l, tail);
  }

  lemma RewrittenAgain(
      e: Rules, title: string, lines: seq<string>, b: Block, again: seq<string>, c: Block, tail: seq<string>)
    requires Sound(e) && IsBlock(e, lines, b) && again == Rewritten(e, title, lines, b) + tail
    requires c == BlockAfter(e, title, lines, b) && IsBlock(e, again, c)
    ensures c.n == |Rewritten(e, title, lines, b)| && Rewritten(e, title, again, c) == Rewritten(e, title, lines, b)
  {
    var r := Rewritten(e, title, lines, b);
    assert again[..c.n] == r;
    assert forall k | 0 <= k < |r| :: again[k] == r[k];
    if CweOf(e, title, lines, b) != None {
      var id := CweOf(e, title, lines, b).value;
      assert r[c.cweAt.value] == e.cweLine(id);
      assert CweOf(e, title, again, c) == Some(id);
      assert c.classAt.Some? ==> r[c.classAt.value] == e.classLine(id);
      assert WithClass(e, again, c, id) == r;
    }
  }

  // A second run changes nothing.
  lemma {:induction false} FilledIsIdempotent(e: Rules, src: seq<string>)
    requires Sound(e)
    ensures Filled(e, Filled(e, src)) == Filled(e, src)
    decreases |src|
  {
    if src != [] {
      if e.kind(src[0]).Header? {
        var title, lines := e.kind(src[0]).title, src[1..];
        var b := BlockOf(e, lines);
        var r, tail := Rewritten(e, title, lines, b), Filled(e, lines[b.n..]);
        BlockOfRewritten(e, title, lines, b, tail);
        HeaderAgain(e, src[0], r + tail, BlockAfter(e, title, lines, b));
        RewrittenAgain(e, title, lines, b, r + tail, BlockAfter(e, title, lines, b), tail);
        assert [src[0]] + r + tail == [src[0]] + (r + tail);
        assert (r + tail)[|r|..] == tail;
        FilledIsIdempotent(e, lines[b.n..]);
      } else {
        assert Filled(e, src)[1..] == Filled(e, src[1..]);
        FilledIsIdempotent(e, src[1..]);
      }
    }
  }

  lemma HeaderAgain(e: Rules, h: string, lines: seq<string>, c: Block)
    requires e.kind(h).Header? && IsBlock(e, lines, c)
    ensures Filled(e, [h] + lines) == [h] + Rewritten(e, e.kind(h).title, lines, c) + Filled(e, lines[c.n..])
  {
    assert ([h] + lines)[1..] == lines;
    BlockIsUnique(e, lines, c, BlockOf(e, lines));
  }

  // ---- what is kept ----

  // b is a with at most c Class lines rewritten and at most w CWE lines rewritten or inserted.
  ghost predicate Conserves(e: Rules, a: seq<string>, b: seq<string>, c: nat, w: nat)
    decreases |a| + |b|
  {
    || (a == [] && b == [])
    || (a != [] && b != [] && a[0] == b[0] && Conserves(e, a[1..], b[1..], c, w))
    || (a != [] && b != [] && e.kind(a[0]).Class? && e.kind(b[0]).Class? && c > 0
        && Conserves(e, a[1..], b[1..], c - 1, w))
    || (a != [] && b != [] && e.kind(a[0]).Cwe? && e.kind(b[0]).Cwe? && w > 0 && Conserves(e, a[1..], b[1..], c, w - 1))
    || (b != [] && e.kind(b[0]).Cwe? && w > 0 && Conserves(e, a, b[1..], c, w - 1))
  }

  lemma {:induction false} SameIsConserved(e: Rules, a: seq<string>, c: nat, w: nat)
    ensures Conserves(e, a, a, c, w)
  {
    if a != [] { SameIsConserved(e, a[1..], c, w); }
  }

  lemma {:induction false} ConservedTogether(
      e: Rules, a: seq<string>, b: seq<string>, c: nat, w: nat, a2: seq<string>, b2: seq<string>, c2: nat,
      w2: nat)
    requires Conserves(e, a, b, c, w) && Conserves(e, a2, b2, c2, w2)
    ensures Conserves(e, a + a2, b + b2, c + c2, w + w2)
    decreases |a| + |b|
  {
    if b == [] {
      assert a + a2 == a2 && b + b2 == b2;
      MoreIsConserved(e, a2, b2, c2, w2, c + c2, w + w2);
    } else {
      assert (b + b2)[0] == b[0] && (b + b2)[1..] == b[1..] + b2;
      assert a != [] ==> (a + a2)[0] == a[0] && (a + a2)[1..] == a[1..] + a2;
      if a != [] && a[0] == b[0] && Conserves(e, a[1..], b[1..], c, w) {
        ConservedTogether(e, a[1..], b[1..], c, w, a2, b2, c2, w2);
      } else if a != [] && e.kind(a[0]).Class? && e.kind(b[0]).Class? && c > 0
          && Conserves(e, a[1..], b[1..], c - 1, w) {
        ConservedTogether(e, a[1..], b[1..], c - 1, w, a2, b2, c2, w2);
      } else if a != [] && e.kind(a[0]).Cwe? && e.kind(b[0]).Cwe? && w > 0 && Conserves(e, a[1..], b[1..], c, w - 1) {
        ConservedTogether(e, a[1..], b[1..], c, w - 1, a2, b2, c2, w2);
      } else {
        ConservedTogether(e, a, b[1..], c, w - 1, a2, b2, c2, w2);
      }
    }
  }

  lemma {:induction false} MoreIsConserved(
      e: Rules, a: seq<string>, b: seq<string>, c: nat, w: nat, c2: nat, w2: nat)
    requires Conserves(e, a, b, c, w) && c <= c2 && w <= w2
    ensures Conserves(e, a, b, c2, w2)
    decreases |a| + |b|
  {
    if b != [] {
      if a != [] && a[0] == b[0] && Conserves(e, a[1..], b[1..], c, w) {
        MoreIsConserved(e, a[1..], b[1..], c, w, c2, w2);
      } else if a != [] && e.kind(a[0]).Class? && e.kind(b[0]).Class? && c > 0
          && Conserves(e, a[1..], b[1..], c - 1, w) {
        MoreIsConserved(e, a[1..], b[1..], c - 1, w, c2 - 1, w2);
      } else if a != [] && e.kind(a[0]).Cwe? && e.kind(b[0]).Cwe? && w > 0 && Conserves(e, a[1..], b[1..], c, w - 1) {
        MoreIsConserved(e, a[1..], b[1..], c, w - 1, c2, w2 - 1);
      } else {
        MoreIsConserved(e, a, b[1..], c, w - 1, c2, w2 - 1);
      }
    }
  }

  // One line in the middle replaced.
  lemma ReplacedIsConserved(
      e: Rules, a: seq<string>, k: nat, l: string, c: nat, w: nat)
    requires k < |a| && Conserves(e, [a[k]], [l], c, w)
    ensures Conserves(e, a, a[k := l], c, w)
  {
    SameIsConserved(e, a[..k], 0, 0);
    SameIsConserved(e, a[k+1..], 0, 0);
    ConservedTogether(e, [a[k]], [l], c, w, a[k+1..], a[k+1..], 0, 0);
    ConservedTogether(e, a[..k], a[..k], 0, 0, [a[k]] + a[k+1..], [l] + a[k+1..], c, w);
    assert a == a[..k] + ([a[k]] + a[k+1..]) && a[k := l] == a[..k] + ([l] + a[k+1..]);
  }

  lemma {:induction false} ConservedInTurn(
      e: Rules, a: seq<string>, b: seq<string>, d: seq<string>, c: nat, w: nat)
    requires Conserves(e, a, b, c, 0) && Conserves(e, b, d, 0, w)
    ensures Conserves(e, a, d, c, w)
    decreases |a| + |b| + |d|
  {
    if d == [] {
      assert b == [] && a == [];
    } else if b != [] && b[0] == d[0] && Conserves(e, b[1..], d[1..], 0, w) {
      if a[0] == b[0] && Conserves(e, a[1..], b[1..], c, 0) {
        ConservedInTurn(e, a[1..], b[1..], d[1..], c, w);
      } else {
        ConservedInTurn(e, a[1..], b[1..], d[1..], c - 1, w);
      }
    } else if b != [] && e.kind(b[0]).Cwe? && e.kind(d[0]).Cwe? && w > 0 && Conserves(e, b[1..], d[1..], 0, w - 1) {
      ConservedInTurn(e, a[1..], b[1..], d[1..], c, w - 1);
    } else {
      ConservedInTurn(e, a, b, d[1..], c, w - 1);
    }
  }

  lemma {:induction false} InsertedIsConserved(
      e: Rules, a: seq<string>, at: nat, l: string)
    requires at <= |a| && e.kind(l).Cwe?
    ensures Conserves(e, a, a[..at] + [l] + a[at..], 0, 1)
    decreases at
  {
    var b := a[..at] + [l] + a[at..];
    if at == 0 {
      SameIsConserved(e, a, 0, 0);
      assert b[1..] == a;
    } else {
      InsertedIsConserved(e, a[1..], at - 1, l);
      assert b[1..] == a[1..][..at-1] + [l] + a[1..][at-1..];
    }
  }

  // A finding's block keeps its lines, but for one Class line and one CWE line.
  lemma BlockIsConserved(e: Rules, title: string, lines: seq<string>, b: Block)
    requires Sound(e) && IsBlock(e, lines, b)
    ensures Conserves(e, lines[..b.n], Rewritten(e, title, lines, b), 1, 1)
  {
    var block, cwe := lines[..b.n], CweOf(e, title, lines, b);
    if cwe == None {
      SameIsConserved(e, block, 1, 1);
    } else {
      var r, l := WithClass(e, lines, b, cwe.value), e.cweLine(cwe.value);
      if b.classAt.Some? {
        assert [block[b.classAt.value]][1..] == [] && [e.classLine(cwe.value)][1..] == [];
        ReplacedIsConserved(e, block, b.classAt.value, e.classLine(cwe.value), 1, 0);
      } else {
        SameIsConserved(e, block, 1, 0);
      }
      if b.cweAt.Some? {
        assert [r[b.cweAt.value]][1..] == [] && [l][1..] == [];
        ReplacedIsConserved(e, r, b.cweAt.value, l, 0, 1);
      } else {
        InsertedIsConserved(e, r, Anchor(b), l);
      }
      ConservedInTurn(e, block, r, Rewritten(e, title, lines, b), 1, 1);
    }
  }

  function Headers(e: Rules, src: seq<string>): nat {
    if src == [] then 0 else (if e.kind(src[0]).Header? then 1 else 0) + Headers(e, src[1..])
  }

  // The findings that have a CWE line.
  function WithCwe(e: Rules, src: seq<string>): nat {
    if src == [] then 0
    else (if e.kind(src[0]).Header? && BlockOf(e, src[1..]).cweAt.Some? then 1 else 0) + WithCwe(e, src[1..])
  }

  lemma {:induction false} NoHeaders(e: Rules, src: seq<string>, n: nat)
    requires n <= |src| && forall k | 0 <= k < n :: !e.kind(src[k]).Header?
    ensures Headers(e, src[n..]) == Headers(e, src) && WithCwe(e, src[n..]) == WithCwe(e, src)
    decreases n
  {
    if n > 0 {
      assert src[1..][n-1..] == src[n..];
      NoHeaders(e, src[1..], n - 1);
    } else {
      assert src[0..] == src;
    }
  }

  lemma NotHeaderInside(e: Rules, lines: seq<string>, b: Block, k: nat)
    requires IsBlock(e, lines, b) && k < b.n
    ensures !e.kind(lines[k]).Header?
  {
    if Inside(e, lines, b.n, b.classAt) {
      assert !Ends(e, lines, k);
    } else if k < b.n - 1 {
      assert !Ends(e, lines, k);
    }
  }

  lemma NoHeaderInBlock(e: Rules, lines: seq<string>, b: Block)
    requires IsBlock(e, lines, b)
    ensures Headers(e, lines[b.n..]) == Headers(e, lines) && WithCwe(e, lines[b.n..]) == WithCwe(e, lines)
  {
    forall k | 0 <= k < b.n ensures !e.kind(lines[k]).Header? {
      NotHeaderInside(e, lines, b, k);
    }
    NoHeaders(e, lines, b.n);
  }

  lemma HeadLineFirst(h: string, r: seq<string>, tail: seq<string>)
    ensures ([h] + r + tail)[0] == h && ([h] + r + tail)[1..] == r + tail
  {
    assert [h] + r + tail == [h] + (r + tail);
  }

  // Every original line is kept, in order, but for one Class line and one CWE line a finding.
  lemma {:induction false} FilledIsConserved(e: Rules, src: seq<string>)
    requires Sound(e)
    ensures Conserves(e, src, Filled(e, src), Headers(e, src), Headers(e, src))
    decreases |src|
  {
    if src != [] {
      if e.kind(src[0]).Header? {
        var title, lines := e.kind(src[0]).title, src[1..];
        var b := BlockOf(e, lines);
        var r, rest := Rewritten(e, title, lines, b), lines[b.n..];
        BlockIsConserved(e, title, lines, b);
        NoHeaderInBlock(e, lines, b);
        FilledIsConserved(e, rest);
        ConservedTogether(e, lines[..b.n], r, 1, 1, rest, Filled(e, rest), Headers(e, rest), Headers(e, rest));
        assert lines == lines[..b.n] + rest;
        HeadLineFirst(src[0], r, Filled(e, rest));
      } else {
        FilledIsConserved(e, src[1..]);
        assert Filled(e, src)[1..] == Filled(e, src[1..]);
      }
    }
  }

  // The lines that are neither Class nor CWE lines.
  function Plain(e: Rules, src: seq<string>): seq<string> {
    if src == [] then []
    else if e.kind(src[0]).Class? || e.kind(src[0]).Cwe? then Plain(e, src[1..])
    else [src[0]] + Plain(e, src[1..])
  }

  lemma {:induction false} PlainIsKept(
      e: Rules, a: seq<string>, b: seq<string>, c: nat, w: nat)
    requires Conserves(e, a, b, c, w)
    ensures Plain(e, a) == Plain(e, b) && |a| <= |b| <= |a| + w
    decreases |a| + |b|
  {
    if b != [] {
      if a != [] && a[0] == b[0] && Conserves(e, a[1..], b[1..], c, w) {
        PlainIsKept(e, a[1..], b[1..], c, w);
      } else if a != [] && e.kind(a[0]).Class? && e.kind(b[0]).Class? && c > 0
          && Conserves(e, a[1..], b[1..], c - 1, w) {
        PlainIsKept(e, a[1..], b[1..], c - 1, w);
      } else if a != [] && e.kind(a[0]).Cwe? && e.kind(b[0]).Cwe? && w > 0 && Conserves(e, a[1..], b[1..], c, w - 1) {
        PlainIsKept(e, a[1..], b[1..], c, w - 1);
      } else {
        PlainIsKept(e, a, b[1..], c, w - 1);
      }
    }
  }

  // Nothing but Class and CWE lines is touched, and there is no more than one new line a finding.
  lemma FilledKeepsPlainLines(e: Rules, src: seq<string>)
    requires Sound(e)
    ensures Plain(e, Filled(e, src)) == Plain(e, src)
    ensures |src| <= |Filled(e, src)| <= |src| + Headers(e, src)
  {
    FilledIsConserved(e, src);
    PlainIsKept(e, src, Filled(e, src), Headers(e, src), Headers(e, src));
  }

  // A block does not reach past the next heading, nor depend on what follows it.
  lemma BlockBeforeHeader(e: Rules, title: string, lines: seq<string>, b: Block, more: seq<string>)
    requires IsBlock(e, lines, b) && more != [] && e.kind(more[0]).Header?
    ensures IsBlock(e, lines + more, b)
    ensures Rewritten(e, title, lines + more, b) == Rewritten(e, title, lines, b)
    ensures (lines + more)[b.n..] == lines[b.n..] + more
  {
    var whole := lines + more;
    assert forall k | 0 <= k < |lines| :: whole[k] == lines[k];
    assert whole[|lines|] == more[0];
    assert forall k | 0 <= k <= |lines| :: Ends(e, whole, k) == Ends(e, lines, k);
    assert whole[..b.n] == lines[..b.n];
  }

  lemma FindingBefore(e: Rules, h: string, lines: seq<string>, b: Block, more: seq<string>)
    requires e.kind(h).Header? && IsBlock(e, lines, b) && more != [] && e.kind(more[0]).Header?
    ensures Filled(e, [h] + (lines + more))
         == [h] + Rewritten(e, e.kind(h).title, lines, b) + Filled(e, lines[b.n..] + more)
  {
    BlockBeforeHeader(e, e.kind(h).title, lines, b, more);
    HeaderAgain(e, h, lines + more, b);
  }

  lemma Regrouped(h: string, r: seq<string>, a: seq<string>, b: seq<string>)
    ensures [h] + r + (a + b) == [h] + r + a + b
  {
  }

  lemma {:induction false} FilledInParts(e: Rules, src: seq<string>, more: seq<string>)
    requires more != [] && e.kind(more[0]).Header?
    ensures Filled(e, src + more) == Filled(e, src) + Filled(e, more)
    decreases |src|
  {
    if src == [] {
      assert src + more == more;
    } else {
      var h, lines := src[0], src[1..];
      assert src == [h] + lines && src + more == [h] + (lines + more);
      if e.kind(h).Header? {
        var b := BlockOf(e, lines);
        FindingBefore(e, h, lines, b, more);
        FilledInParts(e, lines[b.n..], more);
        HeaderAgain(e, h, lines, b);
        Regrouped(h, Rewritten(e, e.kind(h).title, lines, b), Filled(e, lines[b.n..]), Filled(e, more));
      } else {
        FilledInParts(e, lines, more);
        OtherAgain(e, h, lines);
        OtherAgain(e, h, lines + more);
        Regrouped(h, [], Filled(e, lines), Filled(e, more));
      }
    }
  }

  lemma OtherAgain(e: Rules, l: string, lines: seq<string>)
    requires !e.kind(l).Header?
    ensures Filled(e, [l] + lines) == [l] + Filled(e, lines)
  {
    assert ([l] + lines)[1..] == lines;
  }

  // Each finding is rewritten by itself: its lines, from its heading to the next, come out the same
  // whatever stands before and after them, keep their plain lines, and are at most one more.
  lemma FindingsAreApart(
      e: Rules, before: seq<string>, finding: seq<string>, after: seq<string>)
    requires Sound(e) && finding != [] && e.kind(finding[0]).Header? && Headers(e, finding[1..]) == 0
    requires after != [] ==> e.kind(after[0]).Header?
    ensures Filled(e, before + finding + after) == Filled(e, before) + Filled(e, finding) + Filled(e, after)
    ensures Plain(e, Filled(e, finding)) == Plain(e, finding)
    ensures |finding| <= |Filled(e, finding)| <= |finding| + 1
  {
    if after == [] {
      assert before + finding + after == before + finding;
    } else {
      FilledInParts(e, before + finding, after);
    }
    FilledInParts(e, before, finding);
    FilledKeepsPlainLines(e, finding);
  }

  // A finding with a CWE line keeps its CWE: that line and the Class line are written by it.
  lemma CweIsKept(e: Rules, h: string, lines: seq<string>, b: Block, id: string)
    requires e.kind(h).Header? && IsBlock(e, lines, b) && b.cweAt.Some? && e.kind(lines[b.cweAt.value]) == Cwe(id)
    ensures Filled(e, [h] + lines)
         == [h] + (if b.classAt.Some? then lines[..b.n][b.classAt.value := e.classLine(id)] else lines[..b.n])
                    [b.cweAt.value := e.cweLine(id)]
            + Filled(e, lines[b.n..])
  {
    HeaderAgain(e, h, lines, b);
  }

  // One without gains the line of the CWE derived from its title and the category of its Class line:
  // below that line, which is written by it too, or at the end of the block.
  lemma CweIsDerived(
      e: Rules, h: string, title: string, lines: seq<string>, b: Block, i: nat, category: string, id: string)
    requires e.kind(h) == Header(title) && IsBlock(e, lines, b) && b.cweAt.None?
    requires b.classAt == Some(i) && e.kind(lines[i]) == Class(category) && e.derive(title, Some(category)) == Some(id)
    ensures Filled(e, [h] + lines)
         == [h] + (lines[..i] + [e.classLine(id), e.cweLine(id)] + lines[i+1..b.n]) + Filled(e, lines[b.n..])
  {
    WrittenAt(lines[..b.n], i, e.classLine(id), e.cweLine(id));
    assert lines[..b.n][..i] == lines[..i] && lines[..b.n][i+1..] == lines[i+1..b.n];
    HeaderAgain(e, h, lines, b);
  }

  lemma WrittenAt(r: seq<string>, i: nat, x: string, y: string)
    requires i < |r|
    ensures r[i := x][..i+1] + [y] + r[i := x][i+1..] == r[..i] + [x, y] + r[i+1..]
  {
  }

  lemma CweIsDerivedFromTitle(e: Rules, h: string, title: string, lines: seq<string>, b: Block, id: string)
    requires e.kind(h) == Header(title) && IsBlock(e, lines, b) && b.cweAt.None? && b.classAt.None?
    requires e.derive(title, None) == Some(id)
    ensures Filled(e, [h] + lines) == [h] + (lines[..b.n] + [e.cweLine(id)]) + Filled(e, lines[b.n..])
  {
    WrittenAtEnd(lines[..b.n], e.cweLine(id));
    HeaderAgain(e, h, lines, b);
  }

  lemma WrittenAtEnd(r: seq<string>, x: string)
    ensures r[..|r|] + [x] + r[|r|..] == r + [x]
  {
  }

  // Without one to derive it stays as it is.
  lemma NoCweNoChange(e: Rules, h: string, title: string, lines: seq<string>, b: Block)
    requires e.kind(h) == Header(title) && IsBlock(e, lines, b) && b.cweAt.None?
    requires if b.classAt.Some? then
        exists c :: e.kind(lines[b.classAt.value]) == Class(c) && e.derive(title, Some(c)) == None
      else e.derive(title, None) == None
    ensures Filled(e, [h] + lines) == [h] + lines[..b.n] + Filled(e, lines[b.n..])
  {
    HeaderAgain(e, h, lines, b);
  }

  // ---- the loop ----

  lemma FilledUnder(e: Rules, src: seq<string>, i: nat, j: nat, b: Block)
    requires i < |src| && e.kind(src[i]).Header? && IsBlock(e, src[i+1..], b) && j == i + 1 + b.n
    ensures Filled(e, src[i..]) == [src[i]] + Rewritten(e, e.kind(src[i]).title, src[i+1..], b) + Filled(e, src[j..])
  {
    assert src[i..] == [src[i]] + src[i+1..];
    HeaderAgain(e, src[i], src[i+1..], b);
    assert src[i+1..][b.n..] == src[j..];
  }

  lemma HeadersUnder(e: Rules, src: seq<string>, i: nat, j: nat, b: Block)
    requires i < |src| && e.kind(src[i]).Header? && IsBlock(e, src[i+1..], b) && j == i + 1 + b.n
    ensures 1 + Headers(e, src[j..]) == Headers(e, src[i..])
    ensures (if b.cweAt.Some? then 1 else 0) + WithCwe(e, src[j..]) == WithCwe(e, src[i..])
  {
    HeadOf(src, i);
    NoHeaderInBlock(e, src[i+1..], b);
    BlockIsUnique(e, src[i+1..], b, BlockOf(e, src[i+1..]));
    assert src[i+1..][b.n..] == src[j..];
  }

  // Copy the lines under a heading to `out`, noting its first Class and first CWE line.
  method CopyBlock(e: Rules, src: seq<string>, i: nat, out0: seq<string>)
    returns (out: seq<string>, j: nat, classAt: Option<nat>, cweAt: Option<nat>)
    requires i <= |src|
    ensures i <= j <= |src| && out == out0 + src[i..j]
    ensures IsBlock(e, src[i..], Block(j - i, classAt, cweAt))
  {
    ghost var lines := src[i..];
    out, j, classAt, cweAt := out0, i, None, None;
    while j < |src|
      invariant i <= j <= |src| && out == out0 + src[i..j] && Inside(e, lines, j - i, classAt)
      invariant FirstClass(e, lines, j - i, classAt) && FirstCwe(e, lines, j - i, cweAt)
    {
      var kind := e.kind(src[j]);
      assert src[j] == lines[j-i];
      if kind.Header? || kind.Stop? { break; }
      out := out + [src[j]];
      j := j + 1;
      if kind.Cwe? && cweAt == None {
        cweAt := Some(j - 1 - i);
      } else if kind.Class? && classAt == None {
        classAt := Some(j - 1 - i);
      } else if kind == Blank && classAt.Some? {
        break;
      }
    }
  }

  // Rewrite the block that follows the `base` lines copied before it.
  method MendBlock(e: Rules, title: string, ghost lines: seq<string>, b: Block, base: nat, ghost head: seq<string>,
                   copied: seq<string>)
    returns (out: seq<string>, inserted: nat, skipped: nat)
    requires IsBlock(e, lines, b) && |copied| == base + b.n && copied[base..] == lines[..b.n] && copied[..base] == head
    ensures out == head + Rewritten(e, title, lines, b)
    ensures inserted + skipped <= 1 && |out| == |copied| + inserted
    ensures skipped == 1 <==> b.cweAt.Some?
  {
    out, inserted, skipped := copied, 0, 0;
    assert forall k | 0 <= k < b.n :: copied[base+k] == copied[base..][k] == lines[k];
    var cwe := if b.cweAt.Some? then Some(e.kind(out[base + b.cweAt.value]).id)
               else e.derive(title, if b.classAt.Some? then Some(e.kind(out[base + b.classAt.value]).category)
                              else None);
    assert cwe == CweOf(e, title, lines, b);
    if cwe == None { return; }
    ghost var r := WithClass(e, lines, b, cwe.value);
    if b.classAt.Some? {
      ReplacedAfter(copied, base, b.classAt.value, e.classLine(cwe.value));
      out := out[base + b.classAt.value := e.classLine(cwe.value)];
    }
    assert out == copied[..base] + r;
    out, inserted, skipped := PutCwe(b, base, out, e.cweLine(cwe.value));
  }

  // The CWE line replaces the one there is, or goes below the Class line or to the end.
  method PutCwe(b: Block, base: nat, was: seq<string>, line: string)
    returns (out: seq<string>, inserted: nat, skipped: nat)
    requires |was| == base + b.n && (b.cweAt.Some? ==> b.cweAt.value < b.n) && Anchor(b) <= b.n
    ensures var r := was[base..];
      out == was[..base] + if b.cweAt.Some? then r[b.cweAt.value := line] else r[..Anchor(b)] + [line] + r[Anchor(b)..]
    ensures skipped == (if b.cweAt.Some? then 1 else 0) && inserted == 1 - skipped
  {
    ghost var r := was[base..];
    assert was == was[..base] + r;
    if b.cweAt.Some? {
      ReplacedAfter(was, base, b.cweAt.value, line);
      return was[base + b.cweAt.value := line], 0, 1;
    }
    InsertedAfter(was[..base], r, Anchor(b), line);
    var at := base + Anchor(b);
    return was[..at] + [line] + was[at..], 1, 0;
  }

  lemma ReplacedAfter(s: seq<string>, base: nat, k: nat, l: string)
    requires base + k < |s|
    ensures s[base + k := l] == s[..base] + s[base..][k := l]
  {
  }

  lemma InsertedAfter(before: seq<string>, r: seq<string>, at: nat, l: string)
    requires at <= |r|
    ensures (before + r)[..|before|+at] + [l] + (before + r)[|before|+at..] == before + (r[..at] + [l] + r[at..])
  {
    assert (before + r)[..|before|+at] == before + r[..at];
    assert (before + r)[|before|+at..] == r[at..];
  }

  lemma Joined(
      was: seq<string>, h: string, r: seq<string>, rest: seq<string>, out: seq<string>)
    requires out == was + [h] + r
    ensures out + rest == was + ([h] + r + rest)
  {
  }

  // A finding: its heading and its block.
  method FillFinding(e: Rules, src: seq<string>, i: nat, was: seq<string>)
    returns (out: seq<string>, j: nat, inserted: nat, skipped: nat)
    requires i < |src| && e.kind(src[i]).Header?
    ensures i < j <= |src| && out + Filled(e, src[j..]) == was + Filled(e, src[i..])
    ensures 1 + Headers(e, src[j..]) == Headers(e, src[i..]) && skipped + WithCwe(e, src[j..]) == WithCwe(e, src[i..])
    ensures |out| == |was| + (j - i) + inserted && inserted + skipped <= 1
  {
    var title := e.kind(src[i]).title;
    out := was + [src[i]];
    ghost var head := out;
    var base := |out|;
    var classAt, cweAt;
    out, j, classAt, cweAt := CopyBlock(e, src, i + 1, out);
    var b := Block(j - i - 1, classAt, cweAt);
    Copied(head, src, i + 1, j, out);
    out, inserted, skipped := MendBlock(e, title, src[i+1..], b, base, head, out);
    FilledUnder(e, src, i, j, b);
    HeadersUnder(e, src, i, j, b);
    Joined(was, src[i], Rewritten(e, title, src[i+1..], b), Filled(e, src[j..]), out);
  }

  lemma Copied(
      head: seq<string>, src: seq<string>, i: nat, j: nat, out: seq<string>)
    requires i <= j <= |src| && out == head + src[i..j]
    ensures out[..|head|] == head && out[|head|..] == src[i..][..j-i]
  {
  }

  lemma LineKept(e: Rules, src: seq<string>, i: nat, was: seq<string>)
    requires i < |src| && !e.kind(src[i]).Header?
    ensures was + [src[i]] + Filled(e, src[i+1..]) == was + Filled(e, src[i..])
    ensures Headers(e, src[i+1..]) == Headers(e, src[i..]) && WithCwe(e, src[i+1..]) == WithCwe(e, src[i..])
  {
    HeadOf(src, i);
    Joined(was, src[i], [], Filled(e, src[i+1..]), was + [src[i]]);
    assert [src[i]] + [] + Filled(e, src[i+1..]) == [src[i]] + Filled(e, src[i+1..]);
  }

  lemma HeadOf(lines: seq<string>, i: nat)
    requires i < |lines|
    ensures lines[i..][0] == lines[i] && lines[i..][1..] == lines[i+1..]
  {
  }

  // The lines as they are written back, with the findings seen, the CWE lines inserted and those
  // that were there already.
  method BackfillLines(e: Rules, src: seq<string>)
    returns (out: seq<string>, findings: nat, inserted: nat, skipped: nat)
    ensures out == Filled(e, src) && findings == Headers(e, src)
    ensures inserted == |out| - |src| && skipped == WithCwe(e, src) && inserted + skipped <= findings
  {
    out, findings, inserted, skipped := [], 0, 0, 0;
    var i := 0;
    while i < |src|
      invariant i <= |src| && out + Filled(e, src[i..]) == Filled(e, src)
      invariant findings + Headers(e, src[i..]) == Headers(e, src)
      invariant skipped + WithCwe(e, src[i..]) == WithCwe(e, src)
      invariant |out| == i + inserted && inserted + skipped <= findings
    {
      var found, ins, skip;
      out, i, found, ins, skip := FillNext(e, src, i, out);
      findings, inserted, skipped := findings + found, inserted + ins, skipped + skip;
    }
  }

  // The next finding, or the next line outside one.
  method FillNext(e: Rules, src: seq<string>, i: nat, was: seq<string>)
    returns (out: seq<string>, j: nat, found: nat, inserted: nat, skipped: nat)
    requires i < |src|
    ensures i < j <= |src| && out + Filled(e, src[j..]) == was + Filled(e, src[i..])
    ensures found + Headers(e, src[j..]) == Headers(e, src[i..])
    ensures skipped + WithCwe(e, src[j..]) == WithCwe(e, src[i..])
    ensures |out| == |was| + (j - i) + inserted && inserted + skipped <= found
  {
    if e.kind(src[i]).Header? {
      out, j, inserted, skipped := FillFinding(e, src, i, was);
      found := 1;
    } else {
      LineKept(e, src, i, was);
      return was + [src[i]], i + 1, 0, 0, 0;
    }
  }

  // A second run, on the lines of the first, changes and inserts nothing.
  method BackfillTwice(e: Rules, src: seq<string>)
    returns (once: seq<string>, inserted: nat, twice: seq<string>, insertedThen: nat)
    requires Sound(e)
    ensures once == Filled(e, src) && inserted == |once| - |src| <= Headers(e, src)
    ensures twice == Filled(e, once) == once && insertedThen == |twice| - |once| == 0
  {
    var findings, skipped;
    once, findings, inserted, skipped := BackfillLines(e, src);
    twice, findings, insertedThen, skipped := BackfillLines(e, once);
    FilledIsIdempotent(e, src);
  }

  // ---- the file ----

  ghost predicate WritesWhole(e: Rules) {
    forall id | e.isId(id) :: Unbroken(e.classLine(id)) && Unbroken(e.cweLine(id))
  }

  lemma RewrittenIsUnbroken(e: Rules, title: string, lines: seq<string>, b: Block)
    requires Sound(e) && WritesWhole(e) && AllUnbroken(lines) && IsBlock(e, lines, b)
    ensures AllUnbroken(Rewritten(e, title, lines, b))
  {
    var cwe := CweOf(e, title, lines, b);
    if cwe.Some? {
      forall l | l in WithClass(e, lines, b, cwe.value) ensures Unbroken(l) {
        assert l in lines || l == e.classLine(cwe.value);
      }
    }
  }

  lemma {:induction false} FilledIsUnbroken(e: Rules, src: seq<string>)
    requires Sound(e) && WritesWhole(e) && AllUnbroken(src)
    ensures AllUnbroken(Filled(e, src))
    decreases |src|
  {
    if src != [] {
      if e.kind(src[0]).Header? {
        var b := BlockOf(e, src[1..]);
        RewrittenIsUnbroken(e, e.kind(src[0]).title, src[1..], b);
        FilledIsUnbroken(e, src[1..][b.n..]);
      } else {
        FilledIsUnbroken(e, src[1..]);
      }
    }
  }

  function FileAfter(e: Rules, text: string): string { Written(Filled(e, Lines(text))) }

  // Running the script on the file it has written leaves the file as it is, empty files included.
  lemma FileIsIdempotent(e: Rules, text: string)
    requires Sound(e) && WritesWhole(e)
    ensures FileAfter(e, FileAfter(e, text)) == FileAfter(e, text)
  {
    LinesAreUnbroken(text, "");
    var lines := Lines(text);
    if lines == [] {
      assert Filled(e, lines) == [];
      WrittenIsRead([]);
      assert [""][1..] == [] && Filled(e, [""]) == [""];
    } else {
      FilledIsUnbroken(e, lines);
      WrittenIsRead(Filled(e, lines));
      FilledIsIdempotent(e, lines);
    }
  }

  // The file written holds the rewritten lines, each ended by a newline; one of no lines gains one.
  lemma FileIsFilled(e: Rules, text: string)
    requires Sound(e) && WritesWhole(e)
    ensures Lines(FileAfter(e, text)) == if Lines(text) == [] then [""] else Filled(e, Lines(text))
  {
    LinesAreUnbroken(text, "");
    FilledIsUnbroken(e, Lines(text));
    WrittenIsRead(Filled(e, Lines(text)));
  }
}
