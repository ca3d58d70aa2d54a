// Trimming a scan context for a prompt: which files and which call-graph edges are kept.

module ContextTrim {
  import opened PyText
  import opened Selections

  // ---- files ----

  function In(files: seq<string>): string -> bool { f => f in files }

  function InSet(files: set<string>): string -> bool { f => f in files }

  // Files that taint paths, entry points and sinks name come first, if the walk found them.
  function KeptFiles(seeds: seq<string>, all: seq<string>, maxFiles: int): seq<string> {
    var known := Chosen(seeds, In(all));
    if maxFiles >= 1 then Take(Distinct(known + all), maxFiles) else Take(Distinct(known), 1)
  }

  function Limit(maxFiles: int): nat { if maxFiles < 1 then 1 else maxFiles }

  // One list after another, until enough files are kept.
  method AddFiles(paths: seq<string>,
                  wanted: string -> bool, kept0: seq<string>, maxFiles: int, ghost before: seq<string>)
    returns (kept: seq<string>)
    requires kept0 == Distinct(before) && |kept0| < Limit(maxFiles)
    ensures kept == Take(Distinct(before + Chosen(paths, wanted)), Limit(maxFiles))
  {
    kept := kept0;
    var seen := set f | f in kept0;
    ghost var now := before;
    for i := 0 to |paths|
      invariant now == before + Chosen(paths[..i], wanted)
      invariant kept == Distinct(now) && |kept| < Limit(maxFiles)
      invariant seen == Elems(kept)
    {
      ChosenTo(paths, i, wanted);
      if !wanted(paths[i]) { continue; }
      DistinctAdd(now, paths[i]);
      Appended(before, Chosen(paths[..i], wanted), paths[i]);
      ElemsAdd(kept, paths[i]);
      now := now + [paths[i]];
      if paths[i] !in seen {
        seen := seen + {paths[i]};
        kept := kept + [paths[i]];
        if |kept| >= maxFiles {
          Enough(paths, wanted, before, i + 1, now, Limit(maxFiles));
          return;
        }
      }
    }
    assert paths[..|paths|] == paths;
  }

  lemma Appended<T>(s: seq<T>, t: seq<T>, x: T)
    ensures s + (t + [x]) == s + t + [x]
  {
  }

  lemma Enough(
      paths: seq<string>, wanted: string -> bool, before: seq<string>, i: nat, now: seq<string>, n: nat)
    requires i <= |paths| && now == before + Chosen(paths[..i], wanted) && |Distinct(now)| == n > 0
    ensures Distinct(now) == Take(Distinct(before + Chosen(paths, wanted)), n)
  {
    var rest := Chosen(paths[i..], wanted);
    ChosenOfBoth(paths[..i], paths[i..], wanted);
    assert paths == paths[..i] + paths[i..];
    assert before + Chosen(paths, wanted) == now + rest;
    DistinctGrows(now, rest);
  }

  method SelectFiles(seeds: seq<string>, all: seq<string>, maxFiles: int) returns (kept: seq<string>)
    ensures kept == KeptFiles(seeds, all, maxFiles)
  {
    var allSet := set f | f in all;
    SameChosen(seeds, InSet(allSet), In(all));
    ghost var known := Chosen(seeds, In(all));
    assert [] + known == known;
    kept := AddFiles(seeds, InSet(allSet), [], maxFiles, []);
    if |kept| < maxFiles {
      WholeIsChosen(all, InSet(allSet));
      kept := AddFiles(all, InSet(allSet), kept, maxFiles, known);
    } else if maxFiles >= 1 {
      DistinctGrows(known, all);
    }
  }

  // For a positive limit the kept files are distinct, come from the walk, list the seeds that are
  // there first, and are as many as the limit and the walk allow.
  lemma FilesKept(seeds: seq<string>, all: seq<string>, maxFiles: int)
    requires maxFiles >= 1
    ensures var kept := KeptFiles(seeds, all, maxFiles);
            var known := Distinct(Chosen(seeds, In(all)));
      && NoRepeats(kept) && (forall i | 0 <= i < |kept| :: kept[i] in all)
      && |kept| == (if |Elems(all)| < maxFiles then |Elems(all)| else maxFiles)
      && (kept <= known || known <= kept)
  {
    var known := Chosen(seeds, In(all));
    var whole := Distinct(known + all);
    DistinctHasNoRepeats(known + all);
    forall i | 0 <= i < |whole| ensures whole[i] in all {
      DistinctHas(known + all, whole[i]);
      ChosenHas(seeds, In(all), whole[i]);
    }
    DistinctCounts(known + all);
    forall f | f in known ensures f in all { ChosenHas(seeds, In(all), f); }
    assert Elems(known + all) == Elems(all);
    DistinctGrows(known, all);
  }

  // ---- edges ----

  type Edge = (string, string)

  // The call graph in the order of its entries, each caller once.
  type Calls = seq<(string, seq<string>)>

  function Named(callees: seq<string>): seq<string> { Distinct(Chosen(callees, c => c != "")) }

  function From(caller: string, callees: seq<string>): (r: seq<Edge>)
    ensures |r| == |callees|
  {
    if callees == [] then [] else From(caller, callees[..|callees|-1]) + [(caller, callees[|callees|-1])]
  }

  // Every edge once, without those to nowhere.
  function Edges(g: Calls): seq<Edge> {
    if g == [] then [] else Edges(g[..|g|-1]) + From(g[|g|-1].0, Named(g[|g|-1].1))
  }

  datatype Focus = Focus(
    entries: set<string>, sinks: set<string>,          // file::function of those kept
    entryNames: set<string>, sinkNames: set<string>,   // bare function names
    files: set<string>)                                // files kept

  const SEP := "::"

  predicate Qualified(name: string) { exists i: nat :: i <= |name| && At(name, SEP, i) }

  function Bare(name: string): string { RPartition(name, SEP).2 }

  predicate NamesFocus(f: Focus, name: string) {
    name in f.entries || name in f.sinks
        || (!Qualified(name) && (Bare(name) in f.entryNames || Bare(name) in f.sinkNames))
  }

  // An edge at an entry point or a sink.
  predicate Hot(f: Focus, e: Edge) { NamesFocus(f, e.0) || NamesFocus(f, e.1) }

  // The text before the first separator, or nothing without one.
  function FilePart(name: string): string { FilePartFrom(name, 0) }

  function FilePartFrom(name: string, i: nat): string
    decreases |name| - i
  {
    if i >= |name| then "" else if At(name, SEP, i) then name[..i] else FilePartFrom(name, i + 1)
  }

  // An edge is dropped only when both its files are known and neither is kept.
  predicate Admissible(f: Focus, e: Edge) {
    var (cf, tf) := (FilePart(e.0), FilePart(e.1));
    !(cf != "" && cf !in f.files && tf != "" && tf !in f.files)
  }

  function Wanted(f: Focus, hot: bool): Edge -> bool { e => Hot(f, e) == hot && Admissible(f, e) }

  // The first of the hot edges, then of the others.
  function KeptEdges(f: Focus, g: Calls, maxEdges: int): seq<Edge> {
    Take(Chosen(Edges(g), Wanted(f, true)) + Chosen(Edges(g), Wanted(f, false)), maxEdges)
  }

  function Callees(trimmed: map<string, seq<string>>, caller: string): seq<string> {
    if caller in trimmed then trimmed[caller] else []
  }

  // The edges by their callers.
  function Grouped(kept: seq<Edge>): map<string, seq<string>> {
    if kept == [] then map[]
    else
      var g, e := Grouped(kept[..|kept|-1]), kept[|kept|-1];
      g[e.0 := Callees(g, e.0) + [e.1]]
  }

  // The trimmed graph holds just the kept edges, in their order.
  lemma {:induction false} GroupedHas(kept: seq<Edge>, c: string, d: string)
    ensures c in Grouped(kept) && d in Grouped(kept)[c] <==> (c, d) in kept
    ensures c in Grouped(kept) <==> exists e :: e in kept && e.0 == c
  {
    if kept != [] {
      GroupedHas(kept[..|kept|-1], c, d);
      SplitLast(kept);
    }
  }

  lemma {:induction false} FromHas(caller: string, callees: seq<string>, e: Edge)
    ensures e in From(caller, callees) <==> e.0 == caller && e.1 in callees
  {
    if callees != [] {
      FromHas(caller, callees[..|callees|-1], e);
      SplitLast(callees);
    }
  }

  lemma {:induction false} FromAt(caller: string, callees: seq<string>, i: nat)
    requires i < |callees|
    ensures From(caller, callees)[i] == (caller, callees[i])
  {
    if i < |callees| - 1 { FromAt(caller, callees[..|callees|-1], i); }
  }

  ghost predicate CallerOnce(g: Calls) { forall i, j | 0 <= i < j < |g| :: g[i].0 != g[j].0 }

  // Edges are those of the graph, but for callees without a name.
  lemma {:induction false} EdgesAre(g: Calls, e: Edge)
    ensures e in Edges(g) <==> e.1 != "" && exists i :: 0 <= i < |g| && g[i].0 == e.0 && e.1 in g[i].1
  {
    if g != [] {
      var init, last := g[..|g|-1], g[|g|-1];
      EdgesAre(init, e);
      FromHas(last.0, Named(last.1), e);
      NamedHas(last.1, e.1);
      assert g[|g|-1] == last && forall i | 0 <= i < |init| :: g[i] == init[i];
    }
  }

  lemma NamedHas(callees: seq<string>, d: string)
    ensures d in Named(callees) <==> d in callees && d != ""
  {
    DistinctHas(Chosen(callees, c => c != ""), d);
    ChosenHas(callees, c => c != "", d);
  }

  lemma {:induction false} EdgesAreDistinct(g: Calls)
    requires CallerOnce(g)
    ensures NoRepeats(Edges(g))
  {
    if g != [] {
      var init, last := g[..|g|-1], g[|g|-1];
      EdgesAreDistinct(init);
      DistinctHasNoRepeats(Chosen(last.1, c => c != ""));
      var a, b := Edges(init), From(last.0, Named(last.1));
      forall i | 0 <= i < |a| ensures a[i].0 != last.0 { EdgesAre(init, a[i]); }
      forall i | 0 <= i < |b| ensures b[i] == (last.0, Named(last.1)[i]) { FromAt(last.0, Named(last.1), i); }
    }
  }

  lemma GroupedAdd(kept: seq<Edge>, e: Edge)
    ensures Grouped(kept + [e]) == Grouped(kept)[e.0 := Callees(Grouped(kept), e.0) + [e.1]]
  {
    AddedLast(kept, e);
  }

  lemma EnoughEdges(
      es: seq<Edge>, wanted: Edge -> bool, n: nat, before: seq<Edge>, kept: seq<Edge>)
    requires n <= |es| && kept == before + Chosen(es[..n], wanted) && kept != []
    ensures kept == Take(before + Chosen(es, wanted), |kept|)
  {
    assert es == es[..n] + es[n..];
    ChosenOfBoth(es[..n], es[n..], wanted);
    TakenWhole(before, Chosen(es[..n], wanted), Chosen(es[n..], wanted));
  }

  lemma TakenWhole<T>(s: seq<T>, t: seq<T>, u: seq<T>)
    requires s + t != []
    ensures Take(s + (t + u), |s + t|) == s + t
  {
    assert s + (t + u) == (s + t) + u;
  }

  // Edge n added to the kept ones, if it is wanted.
  lemma KeptMore(
      es: seq<Edge>, wanted: Edge -> bool, n: nat, before: seq<Edge>, kept: seq<Edge>)
    requires n < |es| && kept == before + Chosen(es[..n], wanted)
    ensures before + Chosen(es[..n+1], wanted) == if wanted(es[n]) then kept + [es[n]] else kept
  {
    ChosenTo(es, n, wanted);
    Appended(before, Chosen(es[..n], wanted), es[n]);
  }

  // One pass over the edges until enough are kept.
  method TakeEdges(es: seq<Edge>, wanted: Edge -> bool, maxEdges: int, before: seq<Edge>, trimmed0: map<string,
                   seq<string>>)
    returns (kept: seq<Edge>, trimmed: map<string, seq<string>>)
    requires |before| < maxEdges && trimmed0 == Grouped(before)
    ensures kept == Take(before + Chosen(es, wanted), maxEdges) && trimmed == Grouped(kept)
  {
    kept, trimmed := before, trimmed0;
    for n := 0 to |es|
      invariant kept == before + Chosen(es[..n], wanted) && trimmed == Grouped(kept) && |kept| < maxEdges
    {
      var (caller, callee) := es[n];
      KeptMore(es, wanted, n, before, kept);
      if !wanted(es[n]) { continue; }
      GroupedAdd(kept, es[n]);
      kept, trimmed := kept + [es[n]], trimmed[caller := Callees(trimmed, caller) + [callee]];
      if |kept| >= maxEdges {
        EnoughEdges(es, wanted, n + 1, before, kept);
        return;
      }
    }
    assert es[..|es|] == es;
  }

  // The trimmed graph, and how many edges it has.
  method TrimEdges(f: Focus, g: Calls, maxEdges: int) returns (trimmed: map<string, seq<string>>, total: nat)
    ensures trimmed == Grouped(KeptEdges(f, g, maxEdges)) && total == |KeptEdges(f, g, maxEdges)|
  {
    var kept: seq<Edge> := [];
    trimmed := map[];
    if maxEdges <= 0 { return trimmed, 0; }
    ghost var hot, cold := Chosen(Edges(g), Wanted(f, true)), Chosen(Edges(g), Wanted(f, false));
    assert [] + hot == hot;
    kept, trimmed := TakeEdges(Edges(g), Wanted(f, true), maxEdges, kept, trimmed);
    if |kept| < maxEdges {
      kept, trimmed := TakeEdges(Edges(g), Wanted(f, false), maxEdges, kept, trimmed);
    } else {
      assert Take(hot, maxEdges) == Take(hot + cold, maxEdges);
    }
    return trimmed, |kept|;
  }

  // What is kept: edges of the graph that may be, none twice, and as many as the limit allows; an
  // edge away from entry points and sinks only when every admissible edge at one is kept too.
  lemma EdgesKept(f: Focus, g: Calls, maxEdges: int, e: Edge, h: Edge)
    requires CallerOnce(g) && maxEdges >= 0
    ensures var kept := KeptEdges(f, g, maxEdges);
      && NoRepeats(kept)
      && (e in kept ==> e in Edges(g) && Admissible(f, e))
      && (e in Edges(g) && Admissible(f, e) && e !in kept ==> |kept| == maxEdges)
      && (e in kept && !Hot(f, e) && h in Edges(g) && Hot(f, h) && Admissible(f, h) ==> h in kept)
  {
    var hot, cold := Chosen(Edges(g), Wanted(f, true)), Chosen(Edges(g), Wanted(f, false));
    var kept := KeptEdges(f, g, maxEdges);
    EdgesAreDistinct(g);
    ChosenHasNoRepeats(Edges(g), Wanted(f, true));
    ChosenHasNoRepeats(Edges(g), Wanted(f, false));
    HotIsNotCold(f, Edges(g));
    ChosenHas(Edges(g), Wanted(f, true), e);
    ChosenHas(Edges(g), Wanted(f, false), e);
    ChosenHas(Edges(g), Wanted(f, true), h);
    TakenHas(hot, cold, maxEdges, e, h);
  }

  lemma HotIsNotCold(f: Focus, es: seq<Edge>)
    ensures forall i, j | 0 <= i < |Chosen(es, Wanted(f, true))| && 0 <= j < |Chosen(es, Wanted(f, false))| ::
      Chosen(es, Wanted(f, true))[i] != Chosen(es, Wanted(f, false))[j]
  {
    var hot, cold := Chosen(es, Wanted(f, true)), Chosen(es, Wanted(f, false));
    forall i, j | 0 <= i < |hot| && 0 <= j < |cold| ensures hot[i] != cold[j] {
      ChosenHas(es, Wanted(f, true), hot[i]);
      ChosenHas(es, Wanted(f, false), cold[j]);
    }
  }

  lemma TakenHas(hot: seq<Edge>, cold: seq<Edge>, n: nat, e: Edge, h: Edge)
    requires NoRepeats(hot) && NoRepeats(cold)
    requires forall i, j | 0 <= i < |hot| && 0 <= j < |cold| :: hot[i] != cold[j]
    ensures var kept := Take(hot + cold, n);
      && NoRepeats(kept) && (e in kept ==> e in hot || e in cold)
      && ((e in hot || e in cold) && e !in kept ==> |kept| == n)
      && (e in kept && e !in hot && h in hot ==> h in kept)
  {
    var both, kept := hot + cold, Take(hot + cold, n);
    if e in kept && e !in hot {
      var i :| 0 <= i < |kept| && kept[i] == e;
      assert forall k | 0 <= k < |hot| && k < |kept| :: kept[k] == hot[k];
      assert i >= |hot|;
    }
    if e in hot || e in cold { assert e in both; }
  }
}
