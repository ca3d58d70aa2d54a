// The functions at given lines and in a file, in terms of the entries of a context.

module LineLookup {
  import opened Common
  import opened PyText
  import opened Selections
  import opened GraphView

  // A name in file f: what stands before its last "::" is f.
  predicate Within(q: string, f: string) {
    |f| <= |q| && q[..|f|] == f && At(q, "::", |f|) && forall k | |f| < k < |q| :: !At(q, "::", k)
  }

  lemma WithinIff(q: string, f: string)
    requires f != ""
    ensures FileOf(q) == f <==> Within(q, f)
  {
    var r := LastBefore(q, "::", |q|);
    if r.Some? { assert q[..r.value][..] == q[..r.value]; }
    if Within(q, f) { RPartitionAt(q, "::", |f|); }
  }

  // ---- lines that some definition meets ----

  ghost predicate Hit(ctx: Context, f: string, first: int, last: int, i: nat) {
    i < |ctx.spans| && Within(ctx.spans[i].0, f) && Meets(ctx.spans[i].1, first, last)
  }

  lemma HitCovers(ctx: Context, f: string, first: int, last: int, i: nat)
    requires f != "" && Hit(ctx, f, first, last, i)
    ensures Covers(ctx, f, first, last, SpanOf(ctx.spans[i])) && SpanOf(ctx.spans[i]).qn == ctx.spans[i].0
  {
    WithinIff(ctx.spans[i].0, f);
  }

  lemma CoverIsHit(ctx: Context, f: string, first: int, last: int, s: Span) returns (i: nat)
    requires f != "" && Covers(ctx, f, first, last, s)
    ensures Hit(ctx, f, first, last, i) && ctx.spans[i].0 == s.qn
  {
    i :| 0 <= i < |ctx.spans| && ctx.spans[i].1 != [] && FileOf(ctx.spans[i].0) == f && SpanOf(ctx.spans[i]) == s;
    WithinIff(ctx.spans[i].0, f);
  }

  lemma {:induction false} HitCounts(ctx: Context, n: nat, f: string, first: int, last: int, i: nat)
    requires f != "" && i < n <= |ctx.spans| && Hit(ctx, f, first, last, i)
    ensures CoverCount(ctx.spans[..n], f, first, last) > 0
  {
    assert ctx.spans[..n][..n-1] == ctx.spans[..n-1];
    WithinIff(ctx.spans[i].0, f);
    if i < n - 1 { HitCounts(ctx, n - 1, f, first, last, i); }
  }

  lemma {:induction false} CountIsSmall(spans: seq<(string, seq<int>)>, f: string, first: int, last: int)
    ensures CoverCount(spans, f, first, last) <= |spans|
  {
    if spans != [] { CountIsSmall(spans[..|spans|-1], f, first, last); }
  }

  lemma ExactNames(ctx: Context, f: string, first: int, last: int, exact: seq<Span>, q: string)
    requires f != "" && exact == Chosen(Sorted(SpansIn(ctx.spans, f)), Overlaps(first, last))
    ensures q in Names(exact) <==> exists k: nat :: Hit(ctx, f, first, last, k) && ctx.spans[k].0 == q
  {
    if k: nat :| Hit(ctx, f, first, last, k) && ctx.spans[k].0 == q {
      HitCovers(ctx, f, first, last, k);
      ExactAre(ctx, f, first, last, SpanOf(ctx.spans[k]));
      NamedOf(exact, SpanOf(ctx.spans[k]));
    }
    if q in Names(exact) {
      var s := NamedIn(exact, |exact|, q);
      ExactAre(ctx, f, first, last, s);
      var k := CoverIsHit(ctx, f, first, last, s);
    }
  }

  lemma UncutNames(
      ctx: Context, f: string, first: int, last: int, limit: int, nearest: bool, i: nat, exact: seq<Span>)
    requires f != "" && exact == Chosen(Sorted(SpansIn(ctx.spans, f)), Overlaps(first, last))
    requires Hit(ctx, f, first, last, i) && limit >= |ctx.spans|
    ensures AtLines(ctx, f, first, last, limit, nearest) == Names(exact)
  {
    ExactSize(ctx, f, first, last, i);
    ExactFirst(ctx, f, first, last, limit, nearest, exact);
    UncutBy(Names(exact), limit);
  }

  lemma ExactSize(ctx: Context, f: string, first: int, last: int, i: nat)
    requires f != "" && Hit(ctx, f, first, last, i)
    ensures 0 < |Chosen(Sorted(SpansIn(ctx.spans, f)), Overlaps(first, last))| <= |ctx.spans|
  {
    assert ctx.spans[..|ctx.spans|] == ctx.spans;
    HitCounts(ctx, |ctx.spans|, f, first, last, i);
    CountIsSmall(ctx.spans, f, first, last);
    ChosenCounts(ctx.spans, f, first, last);
    SortedChoosesAlike(SpansIn(ctx.spans, f), Overlaps(first, last));
  }

  lemma UncutBy(s: seq<string>, limit: int)
    requires limit >= |s|
    ensures UpTo(s, limit) == s
  {
  }

  // Where a definition of the file meets the lines, and the limit lets all be named, those named are
  // exactly the definitions that do.
  lemma NamedAreHit(
      ctx: Context, f: string, first: int, last: int, limit: int, nearest: bool, i: nat, q: string)
    requires f != "" && Hit(ctx, f, first, last, i) && limit >= |ctx.spans|
    ensures q in AtLines(ctx, f, first, last, limit, nearest)
       <==> exists k: nat :: Hit(ctx, f, first, last, k) && ctx.spans[k].0 == q
  {
    var exact := Chosen(Sorted(SpansIn(ctx.spans, f)), Overlaps(first, last));
    UncutNames(ctx, f, first, last, limit, nearest, i, exact);
    ExactNames(ctx, f, first, last, exact, q);
  }

  lemma NamedOf(exact: seq<Span>, s: Span)
    requires s in exact
    ensures s.qn in Names(exact)
  {
    var i :| 0 <= i < |exact| && exact[i] == s;
    assert Names(exact)[i] == s.qn;
  }

  function EndOf(sp: seq<int>): int
    requires sp != []
  {
    if |sp| >= 2 && sp[1] > sp[0] then sp[1] else sp[0]
  }

  // By start, then end, then name.
  predicate Earlier(a: (string, seq<int>), b: (string, seq<int>))
    requires a.1 != [] && b.1 != []
  {
    || a.1[0] < b.1[0]
    || (a.1[0] == b.1[0] && EndOf(a.1) < EndOf(b.1))
    || (a.1[0] == b.1[0] && EndOf(a.1) == EndOf(b.1) && Less(a.0, b.0))
  }

  // They are named in the order of their definitions, and a limit keeps the first ones.
  lemma NamedInOrder(
      ctx: Context, f: string, first: int, last: int, limit: int, nearest: bool, i: nat, k: nat)
    requires Keyed(ctx) && f != "" && Hit(ctx, f, first, last, i) && Hit(ctx, f, first, last, k)
    ensures var r := AtLines(ctx, f, first, last, limit, nearest);
      && (ctx.spans[i].0 in r && ctx.spans[k].0 !in r ==> Earlier(ctx.spans[i], ctx.spans[k]))
      && (forall a, b | 0 <= a < b < |r| && r[a] == ctx.spans[i].0 && r[b] == ctx.spans[k].0 ::
            Earlier(ctx.spans[i], ctx.spans[k]))
  {
    var r := AtLines(ctx, f, first, last, limit, nearest);
    HitCovers(ctx, f, first, last, i);
    HitCovers(ctx, f, first, last, k);
    CoveredLines(ctx, f, first, last, limit, nearest, r, SpanOf(ctx.spans[i]), SpanOf(ctx.spans[k]));
  }

  // ---- lines that none meets ----

  ghost predicate Defines(ctx: Context, f: string, i: nat) {
    i < |ctx.spans| && Within(ctx.spans[i].0, f) && ctx.spans[i].1 != []
  }

  function Away(a: int, b: int): int { if a < b then b - a else a - b }

  function Least(a: int, b: int): int { if a < b then a else b }

  // How far a definition is: from its end to the first line, or from its start to the last.
  function Far(sp: seq<int>, first: int, last: int): int
    requires sp != []
  {
    Least(Away(first, EndOf(sp)), Away(last, sp[0]))
  }

  // As near as b, and before it by name if equally near.
  predicate NoFarther(a: (string, seq<int>), b: (string, seq<int>), first: int, last: int)
    requires a.1 != [] && b.1 != []
  {
    || Far(a.1, first, last) < Far(b.1, first, last)
    || (Far(a.1, first, last) == Far(b.1, first, last) && (a.0 == b.0 || Less(a.0, b.0)))
  }

  ghost predicate IsNearest(ctx: Context, f: string, first: int, last: int, k: nat) {
    Defines(ctx, f, k) && forall j: nat | Defines(ctx, f, j) :: NoFarther(ctx.spans[k], ctx.spans[j], first, last)
  }

  // With no definition there, and no function of the file in the call graph, a nearest definition is
  // named, the first by name of those equally near.
  lemma NearestIsNamed(ctx: Context, f: string, first: int, last: int, limit: int, i: nat) returns (k: nat)
    requires f != "" && Defines(ctx, f, i) && forall j: nat :: !Hit(ctx, f, first, last, j)
    requires forall q :: !(Within(q, f) && IsCalled(ctx.calls, q))
    ensures IsNearest(ctx, f, first, last, k)
    ensures AtLines(ctx, f, first, last, limit, true) == [ctx.spans[k].0]
  {
    NothingThere(ctx, f, first, last);
    WithinIff(ctx.spans[i].0, f);
    var s := NearestSpan(ctx, f, first, last, limit, SpanOf(ctx.spans[i]));
    k := NearestEntry(ctx, f, first, last, s);
  }

  lemma NearestSpan(ctx: Context, f: string, first: int, last: int, limit: int, x: Span) returns (s: Span)
    requires f != "" && HasSpan(ctx, f, x) && forall y :: !Covers(ctx, f, first, last, y)
    requires forall q :: !(FileOf(q) == f && IsCalled(ctx.calls, q))
    ensures HasSpan(ctx, f, s) && AtLines(ctx, f, first, last, limit, true) == [s.qn]
    ensures forall y | HasSpan(ctx, f, y) :: Nearer(s, y, first, last)
  {
    UncoveredLines(ctx, f, first, last, limit, true);
    var r := AtLines(ctx, f, first, last, limit, true);
    s :| r == [s.qn] && HasSpan(ctx, f, s) && forall y | HasSpan(ctx, f, y) :: Nearer(s, y, first, last);
  }

  lemma NearestEntry(ctx: Context, f: string, first: int, last: int, s: Span) returns (k: nat)
    requires f != "" && HasSpan(ctx, f, s) && forall y | HasSpan(ctx, f, y) :: Nearer(s, y, first, last)
    ensures IsNearest(ctx, f, first, last, k) && ctx.spans[k].0 == s.qn
  {
    k :| 0 <= k < |ctx.spans| && ctx.spans[k].1 != [] && FileOf(ctx.spans[k].0) == f && SpanOf(ctx.spans[k]) == s;
    WithinIff(ctx.spans[k].0, f);
    forall j: nat | Defines(ctx, f, j) ensures NoFarther(ctx.spans[k], ctx.spans[j], first, last) {
      WithinIff(ctx.spans[j].0, f);
      assert HasSpan(ctx, f, SpanOf(ctx.spans[j]));
      NearerIsNoFarther(ctx.spans[k], ctx.spans[j], first, last);
    }
  }

  lemma NothingThere(ctx: Context, f: string, first: int, last: int)
    requires f != "" && forall j: nat :: !Hit(ctx, f, first, last, j)
    requires forall q :: !(Within(q, f) && IsCalled(ctx.calls, q))
    ensures forall s :: !Covers(ctx, f, first, last, s)
    ensures forall q :: !(FileOf(q) == f && IsCalled(ctx.calls, q))
  {
    forall s ensures !Covers(ctx, f, first, last, s) {
      if Covers(ctx, f, first, last, s) { var j := CoverIsHit(ctx, f, first, last, s); }
    }
    forall q ensures !(FileOf(q) == f && IsCalled(ctx.calls, q)) { WithinIff(q, f); }
  }

  lemma NearerIsNoFarther(a: (string, seq<int>), b: (string, seq<int>), first: int, last: int)
    requires a.1 != [] && b.1 != [] && Nearer(SpanOf(a), SpanOf(b), first, last)
    ensures NoFarther(a, b, first, last)
  {
    FarIsDistance(a, first, last);
    FarIsDistance(b, first, last);
  }

  lemma FarIsDistance(e: (string, seq<int>), first: int, last: int)
    requires e.1 != []
    ensures Distance(SpanOf(e), first, last) == Far(e.1, first, last)
  {
  }

  // ---- the functions of a file ----

  // The call graph names q at entry i: as the caller, or as the j-th callee.
  predicate NamedAt(calls: seq<(string, seq<string>)>, q: string, i: nat, j: nat) {
    i < |calls| && if j == 0 then calls[i].0 == q else j <= |calls[i].1| && calls[i].1[j-1] == q
  }

  lemma {:induction false} PlaceOfName(calls: seq<(string, seq<string>)>, m: nat) returns (i: nat, j: nat)
    requires m < |NamesIn(calls)|
    ensures NamedAt(calls, NamesIn(calls)[m], i, j)
    ensures forall q, x: nat, y: nat | NamedAt(calls, q, x, y) && (x < i || (x == i && y <= j)) ::
      q in NamesIn(calls)[..m+1]
  {
    var init, n := calls[..|calls|-1], |calls| - 1;
    var before, here := NamesIn(init), [calls[n].0] + calls[n].1;
    if m < |before| {
      i, j := PlaceOfName(init, m);
      assert NamesIn(calls)[..m+1] == before[..m+1];
      forall q, x: nat, y: nat | NamedAt(calls, q, x, y) && (x < i || (x == i && y <= j))
        ensures q in NamesIn(calls)[..m+1]
      {
        assert NamedAt(init, q, x, y);
      }
    } else {
      i, j := n, m - |before|;
      forall q, x: nat, y: nat | NamedAt(calls, q, x, y) && (x < i || (x == i && y <= j))
        ensures q in NamesIn(calls)[..m+1]
      {
        if x < n {
          assert NamedAt(init, q, x, y);
          NamesAre(init, q);
          assert q in before;
          assert NamesIn(calls)[..m+1][..|before|] == before;
        } else {
          assert NamesIn(calls)[..m+1][|before|+y] == here[y] == q;
        }
      }
    }
  }

  // The functions of a file are listed in the order in which the call graph first names them.
  lemma NodesInOrder(calls: seq<(string, seq<string>)>, f: string, a: nat, b: nat) returns (i: nat, j: nat)
    requires f != "" && a < b < |FileNodes(calls, f)|
    ensures NamedAt(calls, FileNodes(calls, f)[a], i, j)
    ensures forall x: nat, y: nat | NamedAt(calls, FileNodes(calls, f)[b], x, y) :: i < x || (i == x && j < y)
  {
    var m := FirstChosen(NamesIn(calls), InFile(f), a, b);
    i, j := PlaceOfName(calls, m);
  }

  // ---- callers ----

  // The callers of a function are listed in the order of their entries.
  lemma {:induction false} CallersInOrder(calls: seq<(string, seq<string>)>, d: string, a: nat, b: nat)
    returns (i: nat)
    requires a < b < |CallersIn(calls, d)|
    ensures i < |calls| && calls[i].0 == CallersIn(calls, d)[a] && d in calls[i].1
    ensures forall k | 0 <= k <= i && d in calls[k].1 :: calls[k].0 != CallersIn(calls, d)[b]
  {
    var init, r := calls[..|calls|-1], CallersIn(calls[..|calls|-1], d);
    if b < |r| {
      i := CallersInOrder(init, d, a, b);
      assert forall k | 0 <= k <= i :: calls[k] == init[k];
    } else {
      CallersAre(init, r[a], d);
      CallersAre(init, calls[|calls|-1].0, d);
      i :| 0 <= i < |init| && init[i].0 == r[a] && d in init[i].1;
      assert forall k | 0 <= k <= i :: calls[k] == init[k];
    }
  }
}
