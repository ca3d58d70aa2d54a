// The rows a call graph is stored as, and the call graph read back from rows.

module CallGraphRows {
  import opened Common
  import opened PyText

  datatype EntryPoint = EntryPoint(file: string, function_: string, kind: string, unauth: bool)
  datatype Sink = Sink(file: string, function_: string, line: int)

  // The parts of a context or seed package that are stored.
  datatype Graph = Graph(
    calls: map<string, seq<string>>,      // caller -> callees
    sites: map<string, seq<string>>,      // function name -> "file:line" texts
    spans: map<string, seq<int>>,         // qnode -> [start, end]
    entries: seq<EntryPoint>,
    sinks: seq<Sink>)

  datatype NodeRow = NodeRow(
    file: string, function_: string, start: int, end: int,
    isEntry: bool, kind: string, unauth: bool, isSink: bool, sinkLine: int)

  // Node rows by qnode, and edge rows.  The stored listing is sorted, so it is a function of these.
  datatype Rows = Rows(nodes: map<string, NodeRow>, edges: set<(string, string)>)

  function Qnode(file: string, fn: string): string {
    if file != "" || fn != "" then Slashes(file) + "::" + fn else ""
  }

  function SplitQnode(qn: string): (string, string) {
    var r := RPartition(qn, "::");
    (r.0, r.2)
  }

  function LineFromSite(site: string): int {
    var r := RPartition(site, ":");
    if !r.1 then 0 else match ParseInt(r.2) case None => 0 case Some(n) => n
  }

  // ---- graph to rows ----

  // Entry points by qnode; a later one replaces an earlier one.
  function EntryMeta(es: seq<EntryPoint>): map<string, (string, bool)> {
    if es == [] then map[]
    else
      var m, e := EntryMeta(es[..|es|-1]), es[|es|-1];
      var qn := Qnode(e.file, e.function_);
      if qn == "" then m else m[qn := (e.kind, e.unauth)]
  }

  // Sink lines by qnode: the first, or a smaller non-zero one seen later.
  function SinkMeta(ss: seq<Sink>): map<string, int> {
    if ss == [] then map[]
    else
      var m, s := SinkMeta(ss[..|ss|-1]), ss[|ss|-1];
      var qn := Qnode(s.file, s.function_);
      if qn == "" then m
      else m[qn := if qn !in m || (s.line != 0 && s.line < m[qn]) then s.line else m[qn]]
  }

  predicate IsEdge(g: Graph, c: string, d: string) {
    c in g.calls && d in g.calls[c] && c != "" && d != ""
  }

  function Edges(g: Graph): set<(string, string)> {
    set c, d | c in g.calls && d in g.calls[c] && c != "" && d != "" :: (c, d)
  }

  function Qnodes(g: Graph): set<string> {
    g.calls.Keys + (set e | e in Edges(g) :: e.1) + EntryMeta(g.entries).Keys + SinkMeta(g.sinks).Keys
    + (set q | q in g.spans && q != "")
  }

  // The line of the first site of the function that lies in the file, if there is one.
  function SiteLine(sites: seq<string>, file: string): Option<int> {
    if sites == [] then None
    else if RPartition(sites[0], ":").0 == file then Some(LineFromSite(sites[0]))
    else SiteLine(sites[1..], file)
  }

  function Span(g: Graph, qn: string): (int, int) {
    var (file, fn) := SplitQnode(qn);
    var span := if qn in g.spans then g.spans[qn] else [];
    var start := if |span| >= 1 then span[0] else 0;
    var end := if |span| >= 2 then span[1] else 0;
    if start == 0 && fn != "" && fn in g.sites then
      match SiteLine(g.sites[fn], file)
      case None => (start, end)
      case Some(line) => (line, if end == 0 then line else end)
    else (start, end)
  }

  function RowOf(g: Graph, qn: string): NodeRow {
    var (file, fn) := SplitQnode(qn);
    var (start, end) := Span(g, qn);
    var ep, sk := EntryMeta(g.entries), SinkMeta(g.sinks);
    NodeRow(file, fn, start, end,
            qn in ep, if qn in ep then ep[qn].0 else "", qn in ep && ep[qn].1,
            qn in sk, if qn in sk then sk[qn] else 0)
  }

  predicate IsBare(g: Graph) {
    g.calls == map[] && g.sites == map[] && g.spans == map[] && g.entries == [] && g.sinks == []
  }

  function RowsOf(g: Graph): Option<Rows> {
    if IsBare(g) then None else Some(Rows(map q | q in Qnodes(g) :: RowOf(g, q), Edges(g)))
  }

  method GraphRows(g: Graph) returns (r: Option<Rows>)
    ensures r == RowsOf(g)
  {
    if g.calls == map[] && g.sites == map[] && g.spans == map[] && g.entries == [] && g.sinks == [] { return None; }

    var entryMeta := EntryTable(g.entries);
    var sinkMeta := SinkTable(g.sinks);
    var callees, edges := CollectEdges(g);
    var qnodes := g.calls.Keys + callees + entryMeta.Keys + sinkMeta.Keys + (set q | q in g.spans && q != "");
    var nodes := NodeTable(g, qnodes, entryMeta, sinkMeta);
    return Some(Rows(nodes, edges));
  }

  method EntryTable(es: seq<EntryPoint>) returns (m: map<string, (string, bool)>)
    ensures m == EntryMeta(es)
  {
    m := map[];
    for i := 0 to |es|
      invariant m == EntryMeta(es[..i])
    {
      assert es[..i+1][..i] == es[..i];
      var qn := Qnode(es[i].file, es[i].function_);
      if qn != "" { m := m[qn := (es[i].kind, es[i].unauth)]; }
    }
    assert es[..|es|] == es;
  }

  method SinkTable(ss: seq<Sink>) returns (m: map<string, int>)
    ensures m == SinkMeta(ss)
  {
    m := map[];
    for i := 0 to |ss|
      invariant m == SinkMeta(ss[..i])
    {
      assert ss[..i+1][..i] == ss[..i];
      var qn := Qnode(ss[i].file, ss[i].function_);
      if qn != "" {
        var line := ss[i].line;
        m := m[qn := if qn !in m || (line != 0 && line < m[qn]) then line else m[qn]];
      }
    }
    assert ss[..|ss|] == ss;
  }

  method NodeTable(g: Graph, qnodes: set<string>, entryMeta: map<string, (string, bool)>, sinkMeta: map<string, int>)
    returns (nodes: map<string, NodeRow>)
    requires entryMeta == EntryMeta(g.entries) && sinkMeta == SinkMeta(g.sinks)
    ensures nodes == map q | q in qnodes :: RowOf(g, q)
  {
    nodes := map[];
    var todo := qnodes;
    while todo != {}
      invariant todo <= qnodes && nodes.Keys == qnodes - todo
      invariant forall q | q in nodes :: nodes[q] == RowOf(g, q)
    {
      var q :| q in todo;
      var (file, fn) := SplitQnode(q);
      var start, end := SpanOf(g, q);
      nodes := nodes[q := NodeRow(file, fn, start, end,
        q in entryMeta, if q in entryMeta then entryMeta[q].0 else "", q in entryMeta && entryMeta[q].1,
        q in sinkMeta, if q in sinkMeta then sinkMeta[q] else 0)];
      todo := todo - {q};
    }
  }

  method CollectEdges(g: Graph) returns (callees: set<string>, edges: set<(string, string)>)
    ensures edges == Edges(g) && callees == set e | e in Edges(g) :: e.1
  {
    callees, edges := {}, {};
    var todo := g.calls.Keys;
    while todo != {}
      invariant todo <= g.calls.Keys
      invariant forall c, d :: (c, d) in edges <==> IsEdge(g, c, d) && c !in todo
      invariant callees == set e | e in edges :: e.1
    {
      var c :| c in todo;
      todo := todo - {c};
      if c == "" { continue; }
      var ds := g.calls[c];
      for i := 0 to |ds|
        invariant forall x, d :: (x, d) in edges <==> (IsEdge(g, x, d) && x !in todo && (x != c || d in ds[..i]))
        invariant callees == set e | e in edges :: e.1
      {
        if ds[i] != "" {
          callees := callees + {ds[i]};
          edges := edges + {(c, ds[i])};
        }
      }
    }
  }

  method SpanOf(g: Graph, qn: string) returns (start: int, end: int)
    ensures (start, end) == Span(g, qn)
  {
    var (file, fn) := SplitQnode(qn);
    var span := if qn in g.spans then g.spans[qn] else [];
    start := if |span| >= 1 then span[0] else 0;
    end := if |span| >= 2 then span[1] else 0;
    if start == 0 && fn != "" && fn in g.sites {
      var sites := g.sites[fn];
      for i := 0 to |sites|
        invariant SiteLine(sites[i..], file) == SiteLine(sites, file)
      {
        assert sites[i..][1..] == sites[i+1..];
        if RPartition(sites[i], ":").0 == file {
          start := LineFromSite(sites[i]);
          if end == 0 { end := start; }
          return;
        }
      }
    }
  }

  // ---- rows to graph ----

  datatype Loaded = Loaded(
    calls: map<string, seq<string>>, sites: map<string, seq<string>>, spans: map<string, seq<int>>)

  // The edge order: unauthenticated entry points first, then entry points, then sinks, then names.
  function Score(nodes: map<string, NodeRow>, e: (string, string)): (int, int, int) {
    var flag := (b: bool) => if b then -1 else 0;
    var n := (q: string) => q in nodes;
    (flag((n(e.0) && nodes[e.0].unauth) || (n(e.1) && nodes[e.1].unauth)),
     flag((n(e.0) && nodes[e.0].isEntry) || (n(e.1) && nodes[e.1].isEntry)),
     flag((n(e.0) && nodes[e.0].isSink) || (n(e.1) && nodes[e.1].isSink)))
  }

  predicate Before(nodes: map<string, NodeRow>, a: (string, string), b: (string, string)) {
    var (x, y) := (Score(nodes, a), Score(nodes, b));
    if x.0 != y.0 then x.0 < y.0
    else if x.1 != y.1 then x.1 < y.1
    else if x.2 != y.2 then x.2 < y.2
    else if a.0 != b.0 then Less(a.0, b.0)
    else Less(a.1, b.1)
  }

  lemma BeforeTotal(
      nodes: map<string, NodeRow>, a: (string, string), b: (string, string))
    ensures a == b || Before(nodes, a, b) || Before(nodes, b, a)
  {
    LessTotal(a.0, b.0);
    LessTotal(a.1, b.1);
  }

  lemma BeforeStrict(
      nodes: map<string, NodeRow>, a: (string, string), b: (string, string))
    requires Before(nodes, a, b)
    ensures !Before(nodes, b, a)
  {
    if a.0 != b.0 { if Less(a.0, b.0) { LessStrict(a.0, b.0); } } else { if Less(a.1, b.1) { LessStrict(a.1, b.1); } }
  }

  lemma BeforeTransitive(
      nodes: map<string, NodeRow>, a: (string, string), b: (string, string), c: (string, string))
    requires Before(nodes, a, b) && Before(nodes, b, c)
    ensures Before(nodes, a, c)
  {
    if Score(nodes, a) == Score(nodes, b) == Score(nodes, c) {
      if a.0 == b.0 == c.0 { LessTransitive(a.1, b.1, c.1); }
      if a.0 != b.0 && b.0 != c.0 { LessTransitive(a.0, b.0, c.0); LessStrict(a.0, c.0); }
    }
  }

  ghost predicate IsFirst(nodes: map<string, NodeRow>, es: set<(string, string)>, m: (string, string)) {
    m in es && forall e | e in es :: e == m || Before(nodes, m, e)
  }

  lemma {:induction false} FirstExists(
      nodes: map<string, NodeRow>, es: set<(string, string)>)
    returns (m: (string, string))
    requires es != {}
    ensures IsFirst(nodes, es, m)
  {
    var x :| x in es;
    m := x;
    if es != {x} {
      var y := FirstExists(nodes, es - {x});
      BeforeTotal(nodes, x, y);
      assert forall e | e in es :: e == x || e in es - {x};
      if Before(nodes, y, x) {
        m := y;
      } else {
        forall e | e in es && e != x ensures Before(nodes, x, e) {
          if e != y { BeforeTransitive(nodes, x, y, e); }
        }
      }
    }
  }

  // The edges in order.
  ghost function Sorted(nodes: map<string, NodeRow>, es: set<(string, string)>): seq<(string, string)>
    decreases |es|
  {
    if es == {} then []
    else
      assert exists m :: IsFirst(nodes, es, m) by { var m := FirstExists(nodes, es); }
      var m :| IsFirst(nodes, es, m);
      [m] + Sorted(nodes, es - {m})
  }

  lemma {:induction false} SortedLists(
      nodes: map<string, NodeRow>, es: set<(string, string)>)
    ensures var s := Sorted(nodes, es);
      && (forall e :: e in s <==> e in es)
      && (forall i, j | 0 <= i < j < |s| :: Before(nodes, s[i], s[j]))
    decreases |es|
  {
    if es != {} {
      var s := Sorted(nodes, es);
      var m, rest := s[0], s[1..];
      assert IsFirst(nodes, es, m) && rest == Sorted(nodes, es - {m});
      SortedLists(nodes, es - {m});
      forall i, j | 0 <= i < j < |s| ensures Before(nodes, s[i], s[j]) {
        if i > 0 { assert s[i] == rest[i-1]; }
        assert s[j] == rest[j-1];
        assert s[j] in rest;
      }
    }
  }

  function SiteText(row: NodeRow): string { row.file + ":" + IntText(row.start) }

  predicate HasSite(row: NodeRow) { row.function_ != "" && row.file != "" && row.start != 0 }

  // The sites of each function, in the order the node rows are fetched.
  function SitesOf(nodes: map<string, NodeRow>, fetched: seq<string>): map<string, seq<string>>
    requires forall i | 0 <= i < |fetched| :: fetched[i] in nodes
  {
    if fetched == [] then map[]
    else
      AddSite(SitesOf(nodes, fetched[..|fetched|-1]), nodes[fetched[|fetched|-1]])
  }

  function AddSite(m: map<string, seq<string>>, row: NodeRow): map<string, seq<string>> {
    if !HasSite(row) then m
    else
      var seen := if row.function_ in m then m[row.function_] else [];
      m[row.function_ := if SiteText(row) in seen then seen else seen + [SiteText(row)]]
  }

  function CalleesOf(es: seq<(string, string)>, c: string): seq<string> {
    if es == [] then []
    else CalleesOf(es[..|es|-1], c) + (if es[|es|-1].0 == c then [es[|es|-1].1] else [])
  }

  function NamedEdges(rows: Rows): set<(string, string)> {
    set e | e in rows.edges && e.0 != "" && e.1 != ""
  }

  predicate HasSpan(row: NodeRow) { row.start != 0 || row.end != 0 }

  // A fetch returns every node row once, in any order.
  ghost predicate IsFetch(rows: Rows, fetched: seq<string>) {
    && |fetched| == |rows.nodes|
    && (forall q :: q in fetched <==> q in rows.nodes)
    && (forall i, j | 0 <= i < j < |fetched| :: fetched[i] != fetched[j])
  }

  // Every node is a caller, listed with its callees in edge order.
  ghost function CallsOf(rows: Rows): map<string, seq<string>> {
    map c | c in rows.nodes.Keys + (set e | e in NamedEdges(rows) :: e.0) ::
      CalleesOf(Sorted(rows.nodes, NamedEdges(rows)), c)
  }

  ghost function LoadedFrom(rows: Rows, fetched: seq<string>): Loaded
    requires forall i | 0 <= i < |fetched| :: fetched[i] in rows.nodes
  {
    Loaded(
      CallsOf(rows),
      SitesOf(rows.nodes, fetched),
      SpansOf(rows.nodes))
  }

  function SpansOf(nodes: map<string, NodeRow>): map<string, seq<int>> {
    map q | q in nodes && HasSpan(nodes[q]) :: [nodes[q].start, nodes[q].end]
  }

  // sorted() with the edge order as its key.
  method SortEdges(nodes: map<string, NodeRow>, es: set<(string, string)>) returns (s: seq<(string, string)>)
    ensures s == Sorted(nodes, es)
  {
    s := [];
    var todo := es;
    while todo != {}
      invariant s + Sorted(nodes, todo) == Sorted(nodes, es)
    {
      var m := First(nodes, todo);
      FirstIsUnique(nodes, todo, m, Sorted(nodes, todo)[0]);
      s := s + [m];
      todo := todo - {m};
    }
  }

  method First(nodes: map<string, NodeRow>, es: set<(string, string)>) returns (m: (string, string))
    requires es != {}
    ensures IsFirst(nodes, es, m)
  {
    m :| m in es;
    var todo := es - {m};
    while todo != {}
      invariant todo <= es && IsFirst(nodes, es - todo, m)
    {
      var e :| e in todo;
      BeforeTotal(nodes, e, m);
      if Before(nodes, e, m) {
        forall x | x in es - todo && x != m ensures Before(nodes, e, x) { BeforeTransitive(nodes, e, m, x); }
        m := e;
      }
      todo := todo - {e};
    }
    assert es - todo == es;
  }

  lemma FirstIsUnique(
      nodes: map<string, NodeRow>, es: set<(string, string)>, a: (string, string), b: (string, string))
    requires IsFirst(nodes, es, a) && IsFirst(nodes, es, b)
    ensures a == b
  {
    if a != b { BeforeStrict(nodes, a, b); }
  }

  method LoadRows(rows: Rows, fetched: seq<string>) returns (l: Loaded)
    requires IsFetch(rows, fetched)
    ensures l == LoadedFrom(rows, fetched)
  {
    var sites: map<string, seq<string>> := map[];
    var spans: map<string, seq<int>> := map[];
    for i := 0 to |fetched|
      invariant sites == SitesOf(rows.nodes, fetched[..i])
      invariant forall q :: q in spans <==> q in fetched[..i] && HasSpan(rows.nodes[q])
      invariant forall q | q in spans :: spans[q] == [rows.nodes[q].start, rows.nodes[q].end]
    {
      var qn := fetched[i];
      assert fetched[..i+1][..i] == fetched[..i] && fetched[..i+1][i] == qn;
      assert forall q :: q in fetched[..i+1] <==> q in fetched[..i] || q == qn;
      var row := rows.nodes[qn];
      sites := AddSite(sites, row);
      if row.start != 0 || row.end != 0 { spans := spans[qn := [row.start, row.end]]; }
    }
    assert fetched[..|fetched|] == fetched;
    assert spans == SpansOf(rows.nodes);
    var calls := LoadCalls(rows);
    l := Loaded(calls, sites, spans);
  }

  method LoadCalls(rows: Rows) returns (calls: map<string, seq<string>>)
    ensures calls == CallsOf(rows)
  {
    var ordered := SortEdges(rows.nodes, NamedEdges(rows));
    var listed := ListCallees(ordered);
    CallersListed(rows, listed);
    calls := (map q | q in rows.nodes && q !in listed :: []) + listed;
  }

  method ListCallees(ordered: seq<(string, string)>) returns (listed: map<string, seq<string>>)
    ensures forall c :: c in listed <==> CalleesOf(ordered, c) != []
    ensures forall c | c in listed :: listed[c] == CalleesOf(ordered, c)
  {
    listed := map[];
    for i := 0 to |ordered|
      invariant forall c :: c in listed <==> CalleesOf(ordered[..i], c) != []
      invariant forall c | c in listed :: listed[c] == CalleesOf(ordered[..i], c)
    {
      assert ordered[..i+1][..i] == ordered[..i];
      var (c, d) := ordered[i];
      listed := listed[c := (if c in listed then listed[c] else []) + [d]];
    }
    assert ordered[..|ordered|] == ordered;
  }

  // d is listed under c exactly when (c, d) is an edge.
  lemma {:induction false} CalleesAre(
      es: seq<(string, string)>, c: string, d: string)
    ensures d in CalleesOf(es, c) <==> (c, d) in es
  {
    if es != [] {
      CalleesAre(es[..|es|-1], c, d);
      assert es == es[..|es|-1] + [es[|es|-1]];
    }
  }

  lemma CallersListed(rows: Rows, listed: map<string, seq<string>>)
    requires forall c :: c in listed <==> CalleesOf(Sorted(rows.nodes, NamedEdges(rows)), c) != []
    ensures listed.Keys == set e | e in NamedEdges(rows) :: e.0
  {
    var ordered := Sorted(rows.nodes, NamedEdges(rows));
    SortedLists(rows.nodes, NamedEdges(rows));
    forall c ensures c in listed <==> exists e :: e in NamedEdges(rows) && e.0 == c {
      if c in listed {
        CalleesAre(ordered, c, CalleesOf(ordered, c)[0]);
        assert (c, CalleesOf(ordered, c)[0]) in NamedEdges(rows);
      }
      if e :| e in NamedEdges(rows) && e.0 == c { CalleesAre(ordered, c, e.1); }
    }
  }
}
