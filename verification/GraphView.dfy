// The shared call-graph indices of a scan context: reverse edges, spans and functions by file, the
// functions at given lines, and the cache that keeps one view per context.

module GraphView {
  import opened Common
  import opened PyText
  import opened Selections

  // The call graph in the order of its entries, and the definition spans.
  datatype Context = Context(calls: seq<(string, seq<string>)>, spans: seq<(string, seq<int>)>)

  // Both are dictionaries: no key occurs twice.
  ghost predicate Keyed(ctx: Context) {
    && (forall i, j | 0 <= i < j < |ctx.calls| :: ctx.calls[i].0 != ctx.calls[j].0)
    && (forall i, j | 0 <= i < j < |ctx.spans| :: ctx.spans[i].0 != ctx.spans[j].0)
  }

  function FileOf(qn: string): string { RPartition(qn, "::").0 }

  function Get<T>(m: map<string, seq<T>>, k: string): seq<T> { if k in m then m[k] else [] }

  // ---- reverse edges ----

  function CallersIn(calls: seq<(string, seq<string>)>, d: string): seq<string> {
    if calls == [] then []
    else
      var r, last := CallersIn(calls[..|calls|-1], d), calls[|calls|-1];
      if d in last.1 && last.0 !in r then r + [last.0] else r
  }

  lemma {:induction false} CallersAre(
      calls: seq<(string, seq<string>)>, c: string, d: string)
    ensures c in CallersIn(calls, d) <==> exists i :: 0 <= i < |calls| && calls[i].0 == c && d in calls[i].1
    ensures NoRepeats(CallersIn(calls, d))
  {
    if calls != [] {
      var init, last := calls[..|calls|-1], calls[|calls|-1];
      CallersAre(init, c, d);
      assert forall i | 0 <= i < |init| :: calls[i] == init[i];
    }
  }

  ghost predicate IsReverse(rev: map<string, seq<string>>, calls: seq<(string, seq<string>)>) {
    forall d :: (d in rev <==> CallersIn(calls, d) != []) && (d in rev ==> rev[d] == CallersIn(calls, d))
  }

  // Exactly the converse of the call graph, without repeats, in the order of the callers.
  lemma ReverseIsConverse(
      rev: map<string, seq<string>>, calls: seq<(string, seq<string>)>, c: string, d: string)
    requires IsReverse(rev, calls)
    ensures d in rev && c in rev[d] <==> exists i :: 0 <= i < |calls| && calls[i].0 == c && d in calls[i].1
    ensures d in rev ==> NoRepeats(rev[d])
  {
    CallersAre(calls, c, d);
  }

  // One callee of the caller at hand, which the other callees before it have reached already.
  ghost predicate ReverseTo(rev: map<string, seq<string>>, calls: seq<(string, seq<string>)>, i: nat, j: nat)
    requires i < |calls| && j <= |calls[i].1|
  {
    forall d ::
      && (d in rev <==> CallersTo(calls, i, j, d) != [])
      && (d in rev ==> rev[d] == CallersTo(calls, i, j, d))
  }

  ghost function CallersTo(calls: seq<(string, seq<string>)>, i: nat, j: nat, d: string): seq<string>
    requires i < |calls| && j <= |calls[i].1|
  {
    var r := CallersIn(calls[..i], d);
    if d in calls[i].1[..j] && calls[i].0 !in r then r + [calls[i].0] else r
  }

  lemma CallersToEnds(calls: seq<(string, seq<string>)>, i: nat, d: string)
    requires i < |calls|
    ensures CallersTo(calls, i, 0, d) == CallersIn(calls[..i], d)
    ensures CallersTo(calls, i, |calls[i].1|, d) == CallersIn(calls[..i+1], d)
  {
    assert calls[..i+1][..i] == calls[..i] && calls[i].1[..|calls[i].1|] == calls[i].1;
  }

  lemma CallersToNext(calls: seq<(string, seq<string>)>, i: nat, j: nat, d: string)
    requires i < |calls| && j < |calls[i].1|
    ensures CallersTo(calls, i, j + 1, d)
         == if d == calls[i].1[j] && calls[i].0 !in CallersTo(calls, i, j, d) then
              CallersTo(calls, i, j, d) + [calls[i].0]
            else CallersTo(calls, i, j, d)
  {
    assert calls[i].1[..j+1] == calls[i].1[..j] + [calls[i].1[j]];
  }

  method ReverseEdges(calls: seq<(string, seq<string>)>) returns (rev: map<string, seq<string>>)
    ensures IsReverse(rev, calls)
  {
    rev := map[];
    for i := 0 to |calls|
      invariant IsReverse(rev, calls[..i])
    {
      var (caller, callees) := calls[i];
      forall d ensures CallersTo(calls, i, 0, d) == CallersIn(calls[..i], d)
                    && CallersTo(calls, i, |callees|, d) == CallersIn(calls[..i+1], d) { CallersToEnds(calls, i, d); }
      for j := 0 to |callees|
        invariant ReverseTo(rev, calls, i, j)
      {
        forall d ensures CallersTo(calls, i, j + 1, d)
         == if d == callees[j] && caller !in CallersTo(calls, i, j, d) then CallersTo(calls, i, j, d) + [caller]
            else CallersTo(calls, i, j, d) { CallersToNext(calls, i, j, d); }
        var callee := callees[j];
        if caller !in Get(rev, callee) { rev := rev[callee := Get(rev, callee) + [caller]]; }
      }
    }
    assert calls[..|calls|] == calls;
  }

  // ---- functions by file ----

  function NamesIn(calls: seq<(string, seq<string>)>): seq<string> {
    if calls == [] then [] else NamesIn(calls[..|calls|-1]) + ([calls[|calls|-1].0] + calls[|calls|-1].1)
  }

  function InFile(f: string): string -> bool { qn => FileOf(qn) == f }

  // Every function the call graph places in a file, once, in order of appearance.
  function FileNodes(calls: seq<(string, seq<string>)>, f: string): seq<string> {
    if f == "" then [] else Distinct(Chosen(NamesIn(calls), InFile(f)))
  }

  ghost predicate IsCalled(calls: seq<(string, seq<string>)>, qn: string) {
    exists i :: 0 <= i < |calls| && (calls[i].0 == qn || qn in calls[i].1)
  }

  lemma {:induction false} NamesAre(calls: seq<(string, seq<string>)>, qn: string)
    ensures qn in NamesIn(calls) <==> IsCalled(calls, qn)
  {
    if calls != [] {
      var init := calls[..|calls|-1];
      NamesAre(init, qn);
      assert forall i | 0 <= i < |init| :: calls[i] == init[i];
    }
  }

  lemma FileNodesAre(calls: seq<(string, seq<string>)>, f: string, qn: string)
    requires f != ""
    ensures qn in FileNodes(calls, f) <==> FileOf(qn) == f && IsCalled(calls, qn)
    ensures NoRepeats(FileNodes(calls, f))
  {
    NamesAre(calls, qn);
    ChosenHas(NamesIn(calls), InFile(f), qn);
    DistinctHas(Chosen(NamesIn(calls), InFile(f)), qn);
    DistinctHasNoRepeats(Chosen(NamesIn(calls), InFile(f)));
  }

  ghost predicate IsFileNodes(nodes: map<string, seq<string>>, names: seq<string>) {
    forall f :: f != "" ==>
      && (f in nodes <==> Distinct(Chosen(names, InFile(f))) != [])
      && (f in nodes ==> nodes[f] == Distinct(Chosen(names, InFile(f))))
  }

  method QnodesByFile(calls: seq<(string, seq<string>)>) returns (nodes: map<string, seq<string>>)
    ensures "" !in nodes
    ensures forall f :: f in nodes <==> FileNodes(calls, f) != []
    ensures forall f | f in nodes :: nodes[f] == FileNodes(calls, f)
  {
    nodes := map[];
    var names := NamesIn(calls);
    for i := 0 to |names|
      invariant "" !in nodes && IsFileNodes(nodes, names[..i])
    {
      var qn := names[i];
      forall f ensures Distinct(Chosen(names[..i+1], InFile(f)))
          == PlacedIn(Distinct(Chosen(names[..i], InFile(f))), f, qn) {
        ChosenTo(names, i, InFile(f));
        DistinctAdd(Chosen(names[..i], InFile(f)), qn);
      }
      var f := FileOf(qn);
      if f != "" && qn !in Get(nodes, f) { nodes := nodes[f := Get(nodes, f) + [qn]]; }
    }
    assert names[..|names|] == names;
  }

  function PlacedIn(prior: seq<string>, f: string, qn: string): seq<string> {
    if FileOf(qn) == f && qn !in prior then prior + [qn] else prior
  }

  // ---- spans by file ----

  datatype Span = Span(lo: int, hi: int, qn: string)

  predicate SpanBefore(a: Span, b: Span) {
    a.lo < b.lo || (a.lo == b.lo && (a.hi < b.hi || (a.hi == b.hi && Less(a.qn, b.qn))))
  }

  ghost predicate InOrder(s: seq<Span>) { forall i, j | 0 <= i < j < |s| :: SpanBefore(s[i], s[j]) || s[i] == s[j] }

  function Insert(s: seq<Span>, x: Span): (r: seq<Span>)
    ensures multiset(r) == multiset(s) + multiset{x}
  {
    if s == [] then [x]
    else if SpanBefore(s[|s|-1], x) || s[|s|-1] == x then s + [x]
    else
      assert s == s[..|s|-1] + [s[|s|-1]];
      Insert(s[..|s|-1], x) + [s[|s|-1]]
  }

  function Sorted(s: seq<Span>): (r: seq<Span>)
    ensures multiset(r) == multiset(s)
  {
    if s == [] then []
    else
      assert s == s[..|s|-1] + [s[|s|-1]];
      Insert(Sorted(s[..|s|-1]), s[|s|-1])
  }

  lemma SpanTotal(a: Span, b: Span)
    ensures a == b || SpanBefore(a, b) || SpanBefore(b, a)
  {
    LessTotal(a.qn, b.qn);
  }

  lemma SpanTransitive(a: Span, b: Span, c: Span)
    requires (SpanBefore(a, b) || a == b) && (SpanBefore(b, c) || b == c)
    ensures SpanBefore(a, c) || a == c
  {
    if SpanBefore(a, b) && SpanBefore(b, c) && a.lo == b.lo == c.lo && a.hi == b.hi == c.hi {
      LessTransitive(a.qn, b.qn, c.qn);
    }
  }

  lemma {:induction false} InsertKeepsOrder(s: seq<Span>, x: Span)
    requires InOrder(s)
    ensures InOrder(Insert(s, x))
  {
    if s != [] {
      var init, last := s[..|s|-1], s[|s|-1];
      if SpanBefore(last, x) || last == x {
        forall i | 0 <= i < |s| ensures SpanBefore(s[i], x) || s[i] == x {
          if i < |s| - 1 { SpanTransitive(s[i], last, x); }
        }
      } else {
        SpanTotal(last, x);
        InsertKeepsOrder(init, x);
        var r := Insert(init, x);
        forall i | 0 <= i < |r| ensures SpanBefore(r[i], last) || r[i] == last {
          assert r[i] in multiset(r);
          assert r[i] in init || r[i] == x;
        }
      }
    }
  }

  lemma {:induction false} SortedInOrder(s: seq<Span>)
    ensures InOrder(Sorted(s))
  {
    if s != [] {
      SortedInOrder(s[..|s|-1]);
      InsertKeepsOrder(Sorted(s[..|s|-1]), s[|s|-1]);
    }
  }

  function SpanOf(entry: (string, seq<int>)): Span
    requires entry.1 != []
  {
    var lo := entry.1[0];
    var hi := if |entry.1| > 1 then entry.1[1] else lo;
    Span(lo, if hi < lo then lo else hi, entry.0)
  }

  // The spans of a file: those of its functions that have one.
  function SpansIn(spans: seq<(string, seq<int>)>, f: string): seq<Span> {
    if spans == [] then []
    else
      var r, last := SpansIn(spans[..|spans|-1], f), spans[|spans|-1];
      if f != "" && last.1 != [] && FileOf(last.0) == f then r + [SpanOf(last)] else r
  }

  // A function of the file whose span is s.
  ghost predicate HasSpan(ctx: Context, f: string, s: Span) {
    exists i :: 0 <= i < |ctx.spans| && ctx.spans[i].1 != [] && FileOf(ctx.spans[i].0) == f && SpanOf(ctx.spans[i]) == s
  }

  lemma {:induction false} SpansAre(ctx: Context, n: nat, f: string, s: Span)
    requires f != "" && n <= |ctx.spans|
    ensures s in SpansIn(ctx.spans[..n], f) <==>
      exists i :: 0 <= i < n && ctx.spans[i].1 != [] && FileOf(ctx.spans[i].0) == f && SpanOf(ctx.spans[i]) == s
  {
    if n > 0 {
      assert ctx.spans[..n][..n-1] == ctx.spans[..n-1];
      SpansAre(ctx, n - 1, f, s);
    }
  }

  ghost predicate OneSpanEach(s: seq<Span>) { forall i, j | 0 <= i < j < |s| :: s[i].qn != s[j].qn }

  lemma {:induction false} SpansAreDistinct(ctx: Context, n: nat, f: string)
    requires Keyed(ctx) && f != "" && n <= |ctx.spans|
    ensures OneSpanEach(SpansIn(ctx.spans[..n], f))
  {
    if n > 0 {
      var init := ctx.spans[..n-1];
      assert ctx.spans[..n][..n-1] == init;
      SpansAreDistinct(ctx, n - 1, f);
      var r := SpansIn(init, f);
      forall i | 0 <= i < |r| ensures r[i].qn != ctx.spans[n-1].0 { SpansAre(ctx, n - 1, f, r[i]); }
    }
  }

  method BuildSpanIndex(spans: seq<(string, seq<int>)>) returns (index: map<string, seq<Span>>)
    ensures forall f :: f in index <==> SpansIn(spans, f) != []
    ensures forall f | f in index :: index[f] == Sorted(SpansIn(spans, f))
  {
    var listed: map<string, seq<Span>> := map[];
    for i := 0 to |spans|
      invariant forall f :: f in listed <==> SpansIn(spans[..i], f) != []
      invariant forall f | f in listed :: listed[f] == SpansIn(spans[..i], f)
    {
      assert spans[..i+1][..i] == spans[..i];
      var f := FileOf(spans[i].0);
      if spans[i].1 == [] || f == "" { continue; }
      listed := listed[f := Get(listed, f) + [SpanOf(spans[i])]];
    }
    assert spans[..|spans|] == spans;
    index := map f | f in listed :: Sorted(listed[f]);
  }

  // ---- the view, and the functions at given lines ----

  datatype View = View(
    forward: seq<(string, seq<string>)>, spanIndex: map<string, seq<Span>>,
    fileNodes: map<string, seq<string>>, rev: map<string, seq<string>>)

  ghost predicate Shows(v: View, ctx: Context) {
    && v.forward == ctx.calls
    && (forall f :: f in v.spanIndex <==> SpansIn(ctx.spans, f) != [])
    && (forall f | f in v.spanIndex :: v.spanIndex[f] == Sorted(SpansIn(ctx.spans, f)))
    && (forall f :: f in v.fileNodes <==> FileNodes(ctx.calls, f) != [])
    && (forall f | f in v.fileNodes :: v.fileNodes[f] == FileNodes(ctx.calls, f))
    && IsReverse(v.rev, ctx.calls)
  }

  method BuildView(ctx: Context) returns (v: View)
    ensures Shows(v, ctx)
  {
    var index := BuildSpanIndex(ctx.spans);
    var nodes := QnodesByFile(ctx.calls);
    var rev := ReverseEdges(ctx.calls);
    v := View(ctx.calls, index, nodes, rev);
  }

  function Overlaps(first: int, last: int): Span -> bool { (s: Span) => s.lo <= last && s.hi >= first }

  function Names(s: seq<Span>): (r: seq<string>)
    ensures |r| == |s| && forall i | 0 <= i < |s| :: r[i] == s[i].qn
  {
    if s == [] then [] else Names(s[..|s|-1]) + [s[|s|-1].qn]
  }

  function Gap(a: int, b: int): nat { if a < b then b - a else a - b }

  function Distance(s: Span, first: int, last: int): nat {
    if Gap(first, s.hi) < Gap(last, s.lo) then Gap(first, s.hi) else Gap(last, s.lo)
  }

  predicate Nearer(a: Span, b: Span, first: int, last: int) {
    Distance(a, first, last) < Distance(b, first, last)
    || (Distance(a, first, last) == Distance(b, first, last) && (a.qn == b.qn || Less(a.qn, b.qn)))
  }

  function Nearest(s: seq<Span>, first: int, last: int): (r: Span)
    requires s != []
    ensures r in s
  {
    if |s| == 1 then s[0]
    else
      var r := Nearest(s[..|s|-1], first, last);
      if Nearer(r, s[|s|-1], first, last) then r else s[|s|-1]
  }

  lemma {:induction false} NearestIsLeast(
      s: seq<Span>, first: int, last: int, x: Span)
    requires x in s
    ensures Nearer(Nearest(s, first, last), x, first, last)
  {
    if |s| > 1 {
      var init, end := s[..|s|-1], s[|s|-1];
      var r := Nearest(init, first, last);
      SplitLast(s);
      LessTotal(r.qn, end.qn);
      if x in init {
        NearestIsLeast(init, first, last, x);
        if !Nearer(r, end, first, last) && r.qn != x.qn && x.qn != end.qn && Less(end.qn, r.qn) && Less(r.qn, x.qn) {
          LessTransitive(end.qn, r.qn, x.qn);
        }
      }
    }
  }

  // The functions of file f over lines first to last, cut to `limit`: those whose spans
  // overlap, or else those the call graph knows, or else, when asked for, the nearest.
  function AtLines(ctx: Context, f: string, first: int, last: int, limit: int, nearest: bool): seq<string> {
    var spans := Sorted(SpansIn(ctx.spans, f));
    var exact := Chosen(spans, Overlaps(first, last));
    if exact != [] then UpTo(Names(exact), limit)
    else if FileNodes(ctx.calls, f) != [] then UpTo(FileNodes(ctx.calls, f), limit)
    else if nearest && spans != [] then [Nearest(spans, first, last).qn]
    else []
  }

  function Max(a: int, b: int): int { if a < b then b else a }

  method ScanSpans(spans: seq<Span>, first: int, last: int) returns (exact: seq<string>, nearby: seq<Span>)
    ensures exact == Names(Chosen(spans, Overlaps(first, last)))
    ensures exact == [] ==> nearby == spans
  {
    exact, nearby := [], [];
    for i := 0 to |spans|
      invariant exact == Names(Chosen(spans[..i], Overlaps(first, last)))
      invariant exact == [] ==> nearby == spans[..i]
    {
      ChosenTo(spans, i, Overlaps(first, last));
      NamesAdd(Chosen(spans[..i], Overlaps(first, last)), spans[i]);
      if spans[i].lo <= last && spans[i].hi >= first {
        exact := exact + [spans[i].qn];
      } else {
        nearby := nearby + [spans[i]];
      }
    }
    assert spans[..|spans|] == spans;
  }

  lemma NamesAdd(s: seq<Span>, x: Span)
    ensures Names(s + [x]) == Names(s) + [x.qn]
  {
    AddedLast(s, x);
  }

  lemma FileNodesOnce(calls: seq<(string, seq<string>)>, f: string)
    ensures Distinct(FileNodes(calls, f)) == FileNodes(calls, f)
  {
    if f != "" {
      FileNodesAre(calls, f, "");
      DistinctIsWhole(FileNodes(calls, f));
    }
  }

  method QnodesAt(v: View, ghost ctx: Context, file: string, lineStart: int, lineEnd: int, limit: int, nearest: bool)
    returns (r: seq<string>)
    requires Shows(v, ctx) && Keyed(ctx)
    ensures var first := if lineStart < 1 then 1 else lineStart;
      r == AtLines(ctx, Slashes(file), first, if lineEnd < first then first else lineEnd, limit, nearest)
  {
    var first := Max(1, lineStart);
    r := Lookup(v, ctx, Slashes(file), first, Max(first, lineEnd), limit, nearest);
  }

  method Lookup(v: View, ghost ctx: Context, f: string, first: int, last: int, limit: int, nearest: bool)
    returns (r: seq<string>)
    requires Shows(v, ctx) && Keyed(ctx)
    ensures r == AtLines(ctx, f, first, last, limit, nearest)
  {
    var exact, nearby := ScanSpans(Get(v.spanIndex, f), first, last);
    NamesDoNotRepeat(ctx, f, first, last);
    if exact != [] { return UpTo(Distinct(exact), limit); }
    var nodes := Get(v.fileNodes, f);
    FileNodesOnce(ctx.calls, f);
    if nodes != [] { return UpTo(Distinct(nodes), limit); }
    if nearest && nearby != [] { return [Nearest(nearby, first, last).qn]; }
    return [];
  }

  lemma SortedSpansAre(ctx: Context, f: string, s: Span)
    requires f != ""
    ensures s in Sorted(SpansIn(ctx.spans, f)) <==> HasSpan(ctx, f, s)
  {
    assert ctx.spans[..|ctx.spans|] == ctx.spans;
    SpansAre(ctx, |ctx.spans|, f, s);
    assert s in multiset(Sorted(SpansIn(ctx.spans, f))) <==> s in multiset(SpansIn(ctx.spans, f));
  }

  lemma NoFileNoSpans(spans: seq<(string, seq<int>)>)
    ensures SpansIn(spans, "") == []
  {
    if spans != [] { NoFileNoSpans(spans[..|spans|-1]); }
  }

  lemma {:induction false} OneEachStays(s: seq<Span>, t: seq<Span>)
    requires multiset(s) == multiset(t) && OneSpanEach(s)
    ensures OneSpanEach(t)
  {
    forall i, j | 0 <= i < j < |t| ensures t[i].qn != t[j].qn {
      if t[i].qn == t[j].qn {
        assert t[i] in multiset(s) && t[j] in multiset(s);
        var a :| 0 <= a < |s| && s[a] == t[i];
        var b :| 0 <= b < |s| && s[b] == t[j];
        assert a == b;
        Twice(t, i, j);
        Once(s, a);
      }
    }
  }

  lemma Twice(t: seq<Span>, i: nat, j: nat)
    requires i < j < |t| && t[i] == t[j]
    ensures multiset(t)[t[i]] >= 2
  {
    assert t == t[..i+1] + t[i+1..];
    assert t[i] in t[..i+1] && t[j] in t[i+1..] by { assert t[..i+1][i] == t[i] && t[i+1..][j-i-1] == t[j]; }
  }

  lemma {:induction false} Once(s: seq<Span>, a: nat)
    requires a < |s| && OneSpanEach(s)
    ensures multiset(s)[s[a]] == 1
  {
    assert s == s[..a] + [s[a]] + s[a+1..];
    assert s[a] !in s[..a] && s[a] !in s[a+1..];
  }

  lemma {:induction false} ChosenOneEach(s: seq<Span>, p: Span -> bool)
    requires OneSpanEach(s)
    ensures OneSpanEach(Chosen(s, p))
  {
    if s != [] {
      var init := s[..|s|-1];
      ChosenOneEach(init, p);
      var r := Chosen(init, p);
      forall i | 0 <= i < |r| ensures r[i].qn != s[|s|-1].qn { ChosenHas(init, p, r[i]); }
    }
  }

  lemma NamesDoNotRepeat(ctx: Context, f: string, first: int, last: int)
    requires Keyed(ctx)
    ensures var exact := Names(Chosen(Sorted(SpansIn(ctx.spans, f)), Overlaps(first, last)));
      NoRepeats(exact) && Distinct(exact) == exact
  {
    var listed, spans := SpansIn(ctx.spans, f), Sorted(SpansIn(ctx.spans, f));
    if f == "" {
      NoFileNoSpans(ctx.spans);
    } else {
      assert ctx.spans[..|ctx.spans|] == ctx.spans;
      SpansAreDistinct(ctx, |ctx.spans|, f);
    }
    OneEachStays(listed, spans);
    ChosenOneEach(spans, Overlaps(first, last));
    DistinctIsWhole(Names(Chosen(spans, Overlaps(first, last))));
  }

  ghost predicate Covers(ctx: Context, f: string, first: int, last: int, s: Span) {
    HasSpan(ctx, f, s) && s.lo <= last && s.hi >= first
  }

  lemma ExactAre(ctx: Context, f: string, first: int, last: int, s: Span)
    requires f != ""
    ensures s in Chosen(Sorted(SpansIn(ctx.spans, f)), Overlaps(first, last)) <==> Covers(ctx, f, first, last, s)
  {
    SortedSpansAre(ctx, f, s);
    ChosenHas(Sorted(SpansIn(ctx.spans, f)), Overlaps(first, last), s);
  }

  lemma {:induction false} ChosenInOrder(s: seq<Span>, p: Span -> bool)
    requires InOrder(s)
    ensures InOrder(Chosen(s, p))
  {
    if s != [] {
      var init := s[..|s|-1];
      ChosenInOrder(init, p);
      var r := Chosen(init, p);
      forall i | 0 <= i < |r| ensures SpanBefore(r[i], s[|s|-1]) || r[i] == s[|s|-1] {
        ChosenHas(init, p, r[i]);
      }
    }
  }

  lemma TakenNames(exact: seq<Span>, limit: int, s: Span, t: Span)
    requires InOrder(exact) && OneSpanEach(exact) && s in exact && t in exact
    ensures var r := UpTo(Names(exact), limit);
      && NoRepeats(r)
      && (s.qn in r && t.qn !in r ==> SpanBefore(s, t))
  {
    var r := UpTo(Names(exact), limit);
    var i :| 0 <= i < |exact| && exact[i] == s;
    var j :| 0 <= j < |exact| && exact[j] == t;
    assert i < |r| ==> r[i] == s.qn;
    assert j < |r| ==> r[j] == t.qn;
    if s.qn in r {
      var k :| 0 <= k < |r| && r[k] == s.qn;
      assert exact[k].qn == exact[i].qn;
      assert k == i;
    }
  }

  // How many of n a cut to `limit` keeps.
  function Kept(n: nat, limit: int): nat {
    if limit >= n then n else if limit >= 0 then limit else if n + limit >= 0 then n + limit else 0
  }

  // Where spans of the file overlap the lines, their functions are named, once each and in the order
  // of the spans; the cut leaves the first ones.
  lemma CoveredLines(
      ctx: Context, f: string, first: int, last: int, limit: int, nearest: bool, r: seq<string>, s: Span,
      t: Span)
    requires Keyed(ctx) && f != "" && Covers(ctx, f, first, last, s) && Covers(ctx, f, first, last, t)
    requires r == AtLines(ctx, f, first, last, limit, nearest)
    ensures NoRepeats(r) && (s.qn in r && t.qn !in r ==> SpanBefore(s, t))
    ensures forall i, j | 0 <= i < j < |r| && r[i] == s.qn && r[j] == t.qn :: SpanBefore(s, t)
  {
    var exact := Chosen(Sorted(SpansIn(ctx.spans, f)), Overlaps(first, last));
    ExactAre(ctx, f, first, last, s);
    ExactAre(ctx, f, first, last, t);
    ExactFit(ctx, f, first, last);
    ExactFirst(ctx, f, first, last, limit, nearest, exact);
    TakenNames(exact, limit, s, t);
    forall i, j | 0 <= i < j < |r| && r[i] == s.qn && r[j] == t.qn ensures SpanBefore(s, t) {
      TakenInOrder(exact, limit, i, j, s, t);
    }
  }

  lemma TakenInOrder(exact: seq<Span>, limit: int, i: nat, j: nat, s: Span, t: Span)
    requires InOrder(exact) && OneSpanEach(exact) && s in exact && t in exact
    requires i < j < |UpTo(Names(exact), limit)|
    requires UpTo(Names(exact), limit)[i] == s.qn && UpTo(Names(exact), limit)[j] == t.qn
    ensures SpanBefore(s, t)
  {
    assert exact[i].qn == s.qn && exact[j].qn == t.qn;
    assert exact[i] == s && exact[j] == t;
  }

  // The lines of a definition, its start and its end if given, meet the lines from first to last.
  predicate Meets(sp: seq<int>, first: int, last: int) {
    sp != [] && sp[0] <= last && (sp[0] >= first || (|sp| >= 2 && sp[1] >= first))
  }

  // How many spans of the file overlap the lines, looking at each of them.
  function CoverCount(spans: seq<(string, seq<int>)>, f: string, first: int, last: int): nat {
    if spans == [] then 0
    else
      var end := spans[|spans|-1];
      CoverCount(spans[..|spans|-1], f, first, last)
      + if FileOf(end.0) == f && Meets(end.1, first, last) then 1 else 0
  }

  // So many functions are named, but for the cut.
  lemma CoveredCount(
      ctx: Context, f: string, first: int, last: int, limit: int, nearest: bool)
    requires f != "" && CoverCount(ctx.spans, f, first, last) > 0
    ensures |AtLines(ctx, f, first, last, limit, nearest)| == Kept(CoverCount(ctx.spans, f, first, last), limit)
  {
    var exact := Chosen(Sorted(SpansIn(ctx.spans, f)), Overlaps(first, last));
    ChosenCounts(ctx.spans, f, first, last);
    SortedChoosesAlike(SpansIn(ctx.spans, f), Overlaps(first, last));
    UpToLength(Names(exact), limit);
    ExactFirst(ctx, f, first, last, limit, nearest, exact);
  }

  lemma UpToLength(s: seq<string>, limit: int)
    ensures |UpTo(s, limit)| == Kept(|s|, limit)
  {
  }

  lemma ExactFirst(
      ctx: Context, f: string, first: int, last: int, limit: int, nearest: bool, exact: seq<Span>)
    requires exact == Chosen(Sorted(SpansIn(ctx.spans, f)), Overlaps(first, last)) && exact != []
    ensures AtLines(ctx, f, first, last, limit, nearest) == UpTo(Names(exact), limit)
  {
  }

  lemma {:induction false} ChosenCounts(
      spans: seq<(string, seq<int>)>, f: string, first: int, last: int)
    requires f != ""
    ensures |Chosen(SpansIn(spans, f), Overlaps(first, last))| == CoverCount(spans, f, first, last)
  {
    if spans != [] {
      ChosenCounts(spans[..|spans|-1], f, first, last);
      var r, end := SpansIn(spans[..|spans|-1], f), spans[|spans|-1];
      if end.1 != [] { AddedLast(r, SpanOf(end)); }
    }
  }

  lemma {:induction false} InsertChoosesAlike(
      s: seq<Span>, x: Span, p: Span -> bool)
    ensures |Chosen(Insert(s, x), p)| == |Chosen(s, p)| + if p(x) then 1 else 0
  {
    if s != [] {
      var init, end := s[..|s|-1], s[|s|-1];
      if SpanBefore(end, x) || end == x {
        AddedLast(s, x);
      } else {
        InsertChoosesAlike(init, x, p);
        AddedLast(Insert(init, x), end);
      }
    }
  }

  lemma {:induction false} SortedChoosesAlike(s: seq<Span>, p: Span -> bool)
    ensures |Chosen(Sorted(s), p)| == |Chosen(s, p)|
  {
    if s != [] {
      SortedChoosesAlike(s[..|s|-1], p);
      InsertChoosesAlike(Sorted(s[..|s|-1]), s[|s|-1], p);
    }
  }

  lemma NamedIn(exact: seq<Span>, limit: int, q: string) returns (x: Span)
    requires q in UpTo(Names(exact), limit)
    ensures x in exact && x.qn == q
  {
    var i :| 0 <= i < |UpTo(Names(exact), limit)| && UpTo(Names(exact), limit)[i] == q;
    x := exact[i];
  }

  // And every function named has a span there.
  lemma NamedAreCovered(
      ctx: Context, f: string, first: int, last: int, limit: int, nearest: bool, s: Span, q: string)
    returns (x: Span)
    requires f != "" && Covers(ctx, f, first, last, s) && q in AtLines(ctx, f, first, last, limit, nearest)
    ensures Covers(ctx, f, first, last, x) && x.qn == q
  {
    ExactAre(ctx, f, first, last, s);
    x := NamedIn(Chosen(Sorted(SpansIn(ctx.spans, f)), Overlaps(first, last)), limit, q);
    ExactAre(ctx, f, first, last, x);
  }

  lemma ExactFit(ctx: Context, f: string, first: int, last: int)
    requires Keyed(ctx) && f != ""
    ensures var exact := Chosen(Sorted(SpansIn(ctx.spans, f)), Overlaps(first, last));
      InOrder(exact) && OneSpanEach(exact)
  {
    var listed := SpansIn(ctx.spans, f);
    SortedInOrder(listed);
    ChosenInOrder(Sorted(listed), Overlaps(first, last));
    assert ctx.spans[..|ctx.spans|] == ctx.spans;
    SpansAreDistinct(ctx, |ctx.spans|, f);
    OneEachStays(listed, Sorted(listed));
    ChosenOneEach(Sorted(listed), Overlaps(first, last));
  }

  // Where none does: the file's functions in the call graph, or else, on request, a nearest one.
  lemma UncoveredLines(
      ctx: Context, f: string, first: int, last: int, limit: int, nearest: bool)
    requires f != "" && forall s :: !Covers(ctx, f, first, last, s)
    ensures var r := AtLines(ctx, f, first, last, limit, nearest);
      if exists qn :: FileOf(qn) == f && IsCalled(ctx.calls, qn) then r == UpTo(FileNodes(ctx.calls, f), limit)
      else if nearest && exists s :: HasSpan(ctx, f, s) then
        exists s: Span :: r == [s.qn] && HasSpan(ctx, f, s) && forall x | HasSpan(ctx, f, x) ::
            Nearer(s, x, first, last)
      else r == []
  {
    var spans := Sorted(SpansIn(ctx.spans, f));
    var exact := Chosen(spans, Overlaps(first, last));
    if exact != [] { ExactAre(ctx, f, first, last, exact[0]); }
    var nodes := FileNodes(ctx.calls, f);
    if nodes != [] { FileNodesAre(ctx.calls, f, nodes[0]); }
    if qn :| FileOf(qn) == f && IsCalled(ctx.calls, qn) {
      FileNodesAre(ctx.calls, f, qn);
    } else if nearest && spans != [] {
      var s := Nearest(spans, first, last);
      SortedSpansAre(ctx, f, s);
      forall x | HasSpan(ctx, f, x) ensures Nearer(s, x, first, last) {
        SortedSpansAre(ctx, f, x);
        NearestIsLeast(spans, first, last, x);
      }
    } else if nearest {
      forall s ensures !HasSpan(ctx, f, s) { SortedSpansAre(ctx, f, s); }
    }
  }

  // ---- one view per context ----

  // Contexts live under an id, which may be given to another context once the first is collected.
  // The cache remembers, under the id, which context a view was made for.
  class Views {
    var live: map<nat, (nat, Context)>     // id -> the context object there and its contents
    var cache: map<nat, (nat, View)>       // id -> the object the view was made for, and the view
    var next: nat
    ghost var made: map<nat, Context>      // every object there has been

    constructor ()
      ensures Valid() && live == map[] && cache == map[]
    {
      live, cache, next, made := map[], map[], 0, map[];
    }

    ghost predicate Valid()
      reads this
    {
      && (forall k | k in made :: k < next)
      && (forall id | id in live :: live[id].0 in made && made[live[id].0] == live[id].1)
      && (forall id | id in cache :: cache[id].0 in made && Shows(cache[id].1, made[cache[id].0]))
    }

    method Create(id: nat, ctx: Context)
      requires Valid() && id !in live
      modifies this
      ensures Valid() && cache == old(cache)
      ensures live == old(live)[id := (old(next), ctx)]
    {
      live, made, next := live[id := (next, ctx)], made[next := ctx], next + 1;
    }

    method Collect(id: nat)
      requires Valid() && id in live
      modifies this`live
      ensures Valid() && live == old(live) - {id}
    {
      live := live - {id};
    }

    // The view of the context that now has this id, built once for it.
    method ViewOf(id: nat) returns (v: View)
      requires Valid() && id in live
      modifies this`cache
      ensures Valid() && Shows(v, live[id].1)
      ensures cache == old(cache)[id := (live[id].0, v)]
      ensures id in old(cache) && old(cache)[id].0 == live[id].0 ==> cache == old(cache)
    {
      if id in cache && cache[id].0 == live[id].0 { return cache[id].1; }
      v := BuildView(live[id].1);
      cache := cache[id := (live[id].0, v)];
    }
  }

  datatype Event = Made(id: nat, ctx: Context) | Collected(id: nat) | Looked(id: nat)

  // The contexts that live under the ids after an event.  An id is not given to a second context
  // while it is in use.
  function LiveAfter(live: map<nat, Context>, e: Event): map<nat, Context> {
    match e
    case Made(id, ctx) => if id in live then live else live[id := ctx]
    case Collected(id) => live - {id}
    case Looked(_) => live
  }

  function LiveAfterAll(live: map<nat, Context>, events: seq<Event>): map<nat, Context> {
    if events == [] then live else LiveAfter(LiveAfterAll(live, events[..|events|-1]), events[|events|-1])
  }

  // The contexts asked for, in order: one for each lookup of an id in use.
  function Asked(live: map<nat, Context>, events: seq<Event>): seq<Context> {
    if events == [] then []
    else
      var before := LiveAfterAll(live, events[..|events|-1]);
      match events[|events|-1]
      case Looked(id) =>
        Asked(live, events[..|events|-1]) + if id in before then [before[id]] else []
      case _ => Asked(live, events[..|events|-1])
  }

  function Contents(live: map<nat, (nat, Context)>): map<nat, Context> { map id | id in live :: live[id].1 }

  ghost predicate AllShow(seen: seq<View>, asked: seq<Context>) {
    |seen| == |asked| && forall k | 0 <= k < |seen| :: Shows(seen[k], asked[k])
  }

  lemma EventNext(live: map<nat, Context>, events: seq<Event>, i: nat)
    requires i < |events|
    ensures LiveAfterAll(live, events[..i+1]) == LiveAfter(LiveAfterAll(live, events[..i]), events[i])
    ensures var now := LiveAfterAll(live, events[..i]);
      Asked(live, events[..i+1])
      == Asked(live, events[..i]) + if events[i].Looked? && events[i].id in now then [now[events[i].id]] else []
  {
    assert events[..i+1][..i] == events[..i];
  }

  // Whatever contexts come and go, each lookup gives a view of the context that has the id then.
  method Serve(views: Views, events: seq<Event>) returns (seen: seq<View>)
    requires views.Valid()
    modifies views
    ensures views.Valid() && Contents(views.live) == LiveAfterAll(Contents(old(views.live)), events)
    ensures AllShow(seen, Asked(Contents(old(views.live)), events))
  {
    seen := [];
    ghost var live0 := Contents(views.live);
    for i := 0 to |events|
      invariant views.Valid() && Contents(views.live) == LiveAfterAll(live0, events[..i])
      invariant AllShow(seen, Asked(live0, events[..i]))
    {
      EventNext(live0, events, i);
      var v := Happen(views, events[i]);
      if v.Some? { seen := seen + [v.value]; }
    }
    assert events[..|events|] == events;
  }

  method Happen(views: Views, e: Event) returns (v: Option<View>)
    requires views.Valid()
    modifies views
    ensures views.Valid() && Contents(views.live) == LiveAfter(Contents(old(views.live)), e)
    ensures v.Some? <==> e.Looked? && e.id in old(views.live)
    ensures v.Some? ==> Shows(v.value, Contents(old(views.live))[e.id])
  {
    v := None;
    match e
    case Made(id, ctx) => if id !in views.live { views.Create(id, ctx); }
    case Collected(id) => if id in views.live { views.Collect(id); }
    case Looked(id) =>
      if id in views.live {
        var view := views.ViewOf(id);
        v := Some(view);
      }
  }
}
