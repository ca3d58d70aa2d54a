// Saving a graph, loading it and putting the loaded parts back changes nothing the store keeps.

module GraphNormalForm {
  import opened Common
  import opened PyText
  import opened CallGraphRows

  // The graph with its loaded parts put back; entry points and sinks are not stored this way.
  function Hydrate(g: Graph, l: Loaded): Graph {
    g.(calls := l.calls, sites := l.sites, spans := l.spans)
  }

  // ---- what a load returns ----

  lemma CallsAreEdges(rows: Rows, c: string, d: string)
    ensures c in CallsOf(rows) <==> c in rows.nodes || exists e :: e in NamedEdges(rows) && e.0 == c
    ensures c in CallsOf(rows) && d in CallsOf(rows)[c] <==> (c, d) in NamedEdges(rows)
  {
    var ordered := Sorted(rows.nodes, NamedEdges(rows));
    SortedLists(rows.nodes, NamedEdges(rows));
    CalleesAre(ordered, c, d);
    if (c, d) in NamedEdges(rows) { assert (c, d).0 == c; }
  }

  // Every callee list is free of duplicates and follows the edge order.
  lemma CallsAreOrdered(rows: Rows, c: string, i: nat, j: nat)
    requires c in CallsOf(rows) && i < j < |CallsOf(rows)[c]|
    ensures Before(rows.nodes, (c, CallsOf(rows)[c][i]), (c, CallsOf(rows)[c][j]))
    ensures CallsOf(rows)[c][i] != CallsOf(rows)[c][j]
  {
    var ordered := Sorted(rows.nodes, NamedEdges(rows));
    SortedLists(rows.nodes, NamedEdges(rows));
    CalleesFollow(rows.nodes, ordered, c, i, j);
    BeforeStrict(rows.nodes, (c, CallsOf(rows)[c][i]), (c, CallsOf(rows)[c][j]));
  }

  lemma {:induction false} CalleesFollow(
      nodes: map<string, NodeRow>, es: seq<(string, string)>, c: string, i: nat, j: nat)
    requires forall x, y | 0 <= x < y < |es| :: Before(nodes, es[x], es[y])
    requires i < j < |CalleesOf(es, c)|
    ensures Before(nodes, (c, CalleesOf(es, c)[i]), (c, CalleesOf(es, c)[j]))
  {
    var init, last := es[..|es|-1], es[|es|-1];
    var ds := CalleesOf(init, c);
    if j < |ds| {
      CalleesFollow(nodes, init, c, i, j);
    } else {
      assert ds[i] in ds;
      CalleesAre(init, c, ds[i]);
      var x :| 0 <= x < |init| && init[x] == (c, ds[i]);
      assert Before(nodes, es[x], es[|es|-1]);
    }
  }

  // A loaded site comes from a row of that function with a line.
  lemma {:induction false} SiteHasRow(
      nodes: map<string, NodeRow>, fetched: seq<string>, fn: string, k: nat)
    returns (q: string)
    requires forall i | 0 <= i < |fetched| :: fetched[i] in nodes
    requires fn in SitesOf(nodes, fetched) && k < |SitesOf(nodes, fetched)[fn]|
    ensures q in nodes && HasSite(nodes[q]) && nodes[q].function_ == fn
    ensures SitesOf(nodes, fetched)[fn][k] == SiteText(nodes[q])
  {
    var init, last := fetched[..|fetched|-1], fetched[|fetched|-1];
    var m := SitesOf(nodes, init);
    if fn in m && k < |m[fn]| {
      q := SiteHasRow(nodes, init, fn, k);
    } else {
      q := last;
    }
  }

  lemma SiteTextParts(row: NodeRow)
    ensures RPartition(SiteText(row), ":").0 == row.file
  {
    var s := SiteText(row);
    var i := |row.file|;
    assert s[i..i+1] == ":" && s[..i] == row.file;
    forall k | i < k < |s| ensures !At(s, ":", k) {
      assert s[k] == IntText(row.start)[k-i-1];
      if k + 1 <= |s| { assert s[k..k+1][0] == s[k]; }
    }
    RPartitionAt(s, ":", i);
  }

  // A site lookup that finds nothing in the file stays empty-handed.
  lemma {:induction false} NoSiteLine(sites: seq<string>, file: string)
    requires forall i | 0 <= i < |sites| :: RPartition(sites[i], ":").0 != file
    ensures SiteLine(sites, file) == None
  {
    if sites != [] { NoSiteLine(sites[1..], file); }
  }

  // A name that can stand after "::" without a later "::" coming about, its own first colon counted.
  ghost predicate Bare(name: string) { forall i: nat :: !At(":" + name, "::", i) }

  // Two qnodes split alike exactly when they are the same, or one is a bare name and the other that
  // name after "::".
  lemma SplitsAlikeIff(a: string, b: string)
    ensures SplitQnode(a) == SplitQnode(b) <==>
      a == b || (Bare(a) && b == "::" + a) || (Bare(b) && a == "::" + b)
  {
    if SplitQnode(a) == SplitQnode(b) && a != b {
      if RPartition(b, "::").1 { BareWithout(a, b); } else { BareWithout(b, a); }
    }
    if Bare(a) && b == "::" + a { BareSplits(a); }
    if Bare(b) && a == "::" + b { BareSplits(b); }
  }

  lemma BareWithout(a: string, b: string)
    requires SplitQnode(a) == SplitQnode(b) && a != b && RPartition(b, "::").1
    ensures Bare(a) && b == "::" + a
  {
    assert "" + "::" + a == "::" + a;
    assert !RPartition(a, "::").1;
    assert b == ":" + (":" + a);
    forall i: nat ensures !At(":" + a, "::", i) { AtLater(":", ":" + a, i); }
  }

  lemma AtLater(head: string, s: string, i: nat)
    requires |head| == 1
    ensures At(s, "::", i) <==> At(head + s, "::", i + 1)
  {
    if i + 2 <= |s| { assert (head + s)[i+1..i+3] == s[i..i+2]; }
  }

  lemma BareSplits(a: string)
    requires Bare(a)
    ensures SplitQnode(a) == SplitQnode("::" + a)
  {
    var b := "::" + a;
    assert b == ":" + (":" + a);
    forall i: nat ensures !At(a, "::", i) {
      AtLater(":", a, i);
    }
    forall i: nat | i > 0 ensures !At(b, "::", i) {
      AtLater(":", ":" + a, i - 1);
    }
    RPartitionAt(b, "::", 0);
  }

  // With a file part they are the same.
  lemma SplitIsInjective(a: string, b: string)
    requires SplitQnode(a) == SplitQnode(b) && SplitQnode(a).0 != ""
    ensures a == b
  {
    SplitsAlikeIff(a, b);
    if Bare(a) && b == "::" + a { BareSplits(a); }
  }

  // ---- what a save stores ----

  // Each row holds the two parts of its qnode, and edges join named nodes that have rows.
  ghost predicate WellStored(rows: Rows) {
    && (forall q | q in rows.nodes :: SplitQnode(q) == (rows.nodes[q].file, rows.nodes[q].function_))
    && (forall e | e in rows.edges :: e.0 in rows.nodes && e.1 in rows.nodes && e.0 != "" && e.1 != "")
  }

  lemma SavedIsWellStored(g: Graph, rows: Rows)
    requires RowsOf(g) == Some(rows)
    ensures WellStored(rows) && rows.nodes.Keys == Qnodes(g) && rows.edges == Edges(g)
  {
  }

  // ---- the normal form ----

  lemma HydratedEdges(g: Graph, rows: Rows, fetched: seq<string>)
    requires WellStored(rows) && IsFetch(rows, fetched)
    ensures Edges(Hydrate(g, LoadedFrom(rows, fetched))) == rows.edges
  {
    var h := Hydrate(g, LoadedFrom(rows, fetched));
    forall c, d ensures IsEdge(h, c, d) <==> (c, d) in rows.edges {
      CallsAreEdges(rows, c, d);
    }
    forall e ensures e in Edges(h) <==> e in rows.edges {
      assert e == (e.0, e.1);
      assert IsEdge(h, e.0, e.1) <==> e in rows.edges;
    }
  }

  lemma SameQnodes(g: Graph, h: Graph, nodes: set<string>)
    requires Qnodes(g) == nodes && Edges(h) == Edges(g) && h.entries == g.entries && h.sinks == g.sinks
    requires h.calls.Keys == nodes && h.spans.Keys <= nodes
    ensures Qnodes(h) == nodes
  {
    var ends := set e | e in Edges(g) :: e.1;
    assert ends <= nodes;
    assert (set e | e in Edges(h) :: e.1) == ends;
    assert EntryMeta(g.entries).Keys <= nodes && SinkMeta(g.sinks).Keys <= nodes;
  }

  // The start-line fallback adds nothing: a row without a line has no site among the loaded ones.
  lemma NoSiteWithoutLine(rows: Rows, fetched: seq<string>, qn: string)
    requires WellStored(rows) && IsFetch(rows, fetched) && qn in rows.nodes
    requires rows.nodes[qn].start == 0 && rows.nodes[qn].function_ in SitesOf(rows.nodes, fetched)
    ensures SiteLine(SitesOf(rows.nodes, fetched)[rows.nodes[qn].function_], rows.nodes[qn].file) == None
  {
    var nodes := rows.nodes;
    var fn, file := nodes[qn].function_, nodes[qn].file;
    var sites := SitesOf(nodes, fetched)[fn];
    forall k | 0 <= k < |sites| ensures RPartition(sites[k], ":").0 != file {
      var q := SiteHasRow(nodes, fetched, fn, k);
      SiteTextParts(nodes[q]);
      if nodes[q].file == file { SplitIsInjective(q, qn); }
    }
    NoSiteLine(sites, file);
  }

  lemma HydratedSpan(g: Graph, rows: Rows, fetched: seq<string>, qn: string)
    requires WellStored(rows) && IsFetch(rows, fetched) && qn in rows.nodes
    ensures Span(Hydrate(g, LoadedFrom(rows, fetched)), qn) == (rows.nodes[qn].start, rows.nodes[qn].end)
  {
    var row, h := rows.nodes[qn], Hydrate(g, LoadedFrom(rows, fetched));
    assert if HasSpan(row) then qn in h.spans && h.spans[qn] == [row.start, row.end] else qn !in h.spans;
    assert SplitQnode(qn) == (row.file, row.function_);
    if row.start == 0 && row.function_ in h.sites {
      NoSiteWithoutLine(rows, fetched, qn);
    }
  }

  lemma HydratedRow(g: Graph, rows: Rows, fetched: seq<string>, q: string)
    requires RowsOf(g) == Some(rows) && IsFetch(rows, fetched) && q in rows.nodes
    ensures RowOf(Hydrate(g, LoadedFrom(rows, fetched)), q) == rows.nodes[q]
  {
    SavedIsWellStored(g, rows);
    HydratedSpan(g, rows, fetched, q);
  }

  lemma HydratedRows(g: Graph, rows: Rows, fetched: seq<string>)
    requires RowsOf(g) == Some(rows) && IsFetch(rows, fetched)
    ensures var h := Hydrate(g, LoadedFrom(rows, fetched));
      RowsOf(h) == if IsBare(h) then None else Some(rows)
  {
    var h := Hydrate(g, LoadedFrom(rows, fetched));
    SavedIsWellStored(g, rows);
    HydratedEdges(g, rows, fetched);
    LoadedCallers(rows);
    SameQnodes(g, h, rows.nodes.Keys);
    forall q | q in rows.nodes ensures RowOf(h, q) == rows.nodes[q] {
      HydratedRow(g, rows, fetched, q);
    }
    SameRows(h, rows);
  }

  lemma LoadedCallers(rows: Rows)
    requires WellStored(rows)
    ensures CallsOf(rows).Keys == rows.nodes.Keys
  {
  }

  lemma SameRows(h: Graph, rows: Rows)
    requires Edges(h) == rows.edges && Qnodes(h) == rows.nodes.Keys
    requires forall q | q in rows.nodes :: RowOf(h, q) == rows.nodes[q]
    ensures RowsOf(h) == if IsBare(h) then None else Some(rows)
  {
    assert (map q | q in Qnodes(h) :: RowOf(h, q)) == rows.nodes;
  }

  lemma HydratedIsBare(g: Graph, rows: Rows, fetched: seq<string>)
    requires WellStored(rows) && IsFetch(rows, fetched)
    ensures IsBare(Hydrate(g, LoadedFrom(rows, fetched))) <==> rows.nodes == map[] && g.entries == [] && g.sinks == []
  {
    LoadedCallers(rows);
    assert rows.nodes == map[] <==> rows.nodes.Keys == {};
    assert CallsOf(rows) == map[] <==> CallsOf(rows).Keys == {};
  }

  // Saving the hydrated graph gives the very rows it was loaded from, unless it has no node and
  // nothing else the store looks at.
  lemma NormalForm(g: Graph, rows: Rows, fetched: seq<string>)
    requires RowsOf(g) == Some(rows) && IsFetch(rows, fetched)
    ensures RowsOf(Hydrate(g, LoadedFrom(rows, fetched))) == Some(rows)
       <==> (rows.nodes != map[] || g.entries != [] || g.sinks != [])
  {
    SavedIsWellStored(g, rows);
    HydratedRows(g, rows, fetched);
    HydratedIsBare(g, rows, fetched);
  }
}
