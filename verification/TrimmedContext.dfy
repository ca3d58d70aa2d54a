// What a trimmed context keeps, in terms of its entry points, sinks, files and call-graph entries.

module TrimmedContext {
  import opened PyText
  import opened Selections
  import opened ContextTrim

  // ---- files ----

  // The files kept follow the seeds, and beyond them the walk.
  lemma FilesInOrder(seeds: seq<string>, all: seq<string>, maxFiles: int, a: nat, b: nat) returns (k: nat)
    requires maxFiles >= 1 && a < b < |KeptFiles(seeds, all, maxFiles)|
    ensures var kept := KeptFiles(seeds, all, maxFiles);
      if kept[a] in seeds then k < |seeds| && seeds[k] == kept[a] && kept[b] !in seeds[..k+1]
      else kept[b] !in seeds && k < |all| && all[k] == kept[a] && kept[b] !in all[..k+1]
  {
    var known := Chosen(seeds, In(all));
    var whole, kept := Distinct(known + all), KeptFiles(seeds, all, maxFiles);
    assert kept[a] == whole[a] && kept[b] == whole[b];
    var m := DistinctFirst(known + all, a, b);
    DistinctHas(known + all, kept[a]);
    DistinctHas(known + all, kept[b]);
    ChosenHas(seeds, In(all), kept[a]);
    ChosenHas(seeds, In(all), kept[b]);
    if m < |known| {
      assert (known + all)[m] == known[m] && (known + all)[..m+1] == known[..m+1];
      k := SeedPlace(seeds, all, m, kept[b]);
    } else {
      k := m - |known|;
      assert (known + all)[..m+1] == known + all[..k+1];
      assert kept[b] !in known && kept[b] !in all[..k+1];
      if kept[a] in seeds { k :| 0 <= k < |seeds| && seeds[k] == kept[a]; }
    }
  }

  lemma SeedPlace(seeds: seq<string>, all: seq<string>, m: nat, f: string) returns (k: nat)
    requires m < |Chosen(seeds, In(all))| && f in all && f !in Chosen(seeds, In(all))[..m+1]
    ensures k < |seeds| && seeds[k] == Chosen(seeds, In(all))[m] && f !in seeds[..k+1]
  {
    var known := Chosen(seeds, In(all));
    k := ChosenAt(seeds, In(all), m);
    ChosenHas(seeds[..k], In(all), f);
    assert known[..m+1] == known[..m] + [known[m]] && seeds[..k+1] == seeds[..k] + [seeds[k]];
  }

  // f is the i-th seed, and the first that the walk found.
  predicate FirstOf(seeds: seq<string>, all: seq<string>, f: string, i: nat) {
    i < |seeds| && f == seeds[i] && f in all && forall j | 0 <= j < i :: seeds[j] !in all
  }

  // A limit below one keeps the first seed that the walk found, if there is one.
  lemma OneFileAtLeast(seeds: seq<string>, all: seq<string>, maxFiles: int)
    requires maxFiles < 1
    ensures var kept := KeptFiles(seeds, all, maxFiles);
      if exists f :: f in seeds && f in all then
        |kept| == 1 && exists i :: FirstOf(seeds, all, kept[0], i)
      else kept == []
  {
    var known := Chosen(seeds, In(all));
    if f :| f in seeds && f in all { ChosenHas(seeds, In(all), f); }
    if known != [] {
      var i := ChosenAt(seeds, In(all), 0);
      forall j | 0 <= j < i ensures seeds[j] !in all { ChosenHas(seeds[..i], In(all), seeds[..i][j]); }
      DistinctStarts(known);
      ChosenHas(seeds, In(all), known[0]);
      assert KeptFiles(seeds, all, maxFiles) == [known[0]] && FirstOf(seeds, all, known[0], i);
    }
  }

  lemma {:induction false} DistinctStarts(s: seq<string>)
    requires s != []
    ensures Distinct(s) != [] && Distinct(s)[0] == s[0]
  {
    if |s| > 1 { DistinctStarts(s[..|s|-1]); }
  }

  // ---- entry points and sinks ----

  type Place = (string, string)    // file, function

  function FocusOf(entries: seq<Place>, sinks: seq<Place>, files: seq<string>): Focus {
    Focus(set p | p in entries :: p.0 + "::" + p.1, set p | p in sinks :: p.0 + "::" + p.1,
          set p | p in entries :: p.1, set p | p in sinks :: p.1, set f | f in files)
  }

  predicate Contains(s: string, sep: string) { exists i | 0 <= i <= |s| - |sep| :: At(s, sep, i) }

  // The function of that place: by file and function, or by its bare name.
  predicate IsAt(p: Place, name: string) {
    name == p.0 + "::" + p.1 || (!Contains(name, "::") && name == p.1)
  }

  predicate AtTarget(entries: seq<Place>, sinks: seq<Place>, name: string) {
    exists p | p in entries + sinks :: IsAt(p, name)
  }

  lemma BareIs(name: string)
    ensures Qualified(name) <==> Contains(name, "::")
    ensures !Contains(name, "::") ==> Bare(name) == name
  {
    if i: nat :| i <= |name| && At(name, SEP, i) { assert At(name, "::", i); }
    if i :| 0 <= i <= |name| - 2 && At(name, "::", i) { assert At(name, SEP, i); }
    if !Contains(name, "::") { assert LastBefore(name, "::", |name|).None?; }
  }

  lemma PlaceIsNamed(ps: seq<Place>, name: string)
    ensures (exists p | p in ps :: IsAt(p, name))
       <==> name in (set p | p in ps :: p.0 + "::" + p.1) || (!Contains(name, "::") && name in (set p | p in ps :: p.1))
  {
    if p :| p in ps && IsAt(p, name) { assert name == p.0 + "::" + p.1 || name == p.1; }
    if name in (set p | p in ps :: p.0 + "::" + p.1) {
      var p :| p in ps && name == p.0 + "::" + p.1;
      assert IsAt(p, name);
    }
    if !Contains(name, "::") && name in (set p | p in ps :: p.1) {
      var p :| p in ps && name == p.1;
      assert IsAt(p, name);
    }
  }

  lemma NameIsTarget(entries: seq<Place>, sinks: seq<Place>, files: seq<string>, name: string)
    ensures NamesFocus(FocusOf(entries, sinks, files), name) <==> AtTarget(entries, sinks, name)
  {
    BareIs(name);
    PlaceIsNamed(entries, name);
    PlaceIsNamed(sinks, name);
    EitherIsTarget(entries, sinks, name);
  }

  lemma EitherIsTarget(entries: seq<Place>, sinks: seq<Place>, name: string)
    ensures AtTarget(entries, sinks, name)
       <==> (exists p | p in entries :: IsAt(p, name)) || (exists p | p in sinks :: IsAt(p, name))
  {
    if p :| p in entries && IsAt(p, name) { assert p in entries + sinks; }
    if p :| p in sinks && IsAt(p, name) { assert p in entries + sinks; }
  }

  // ---- edges ----

  // The first "::" of the name is at k.
  predicate FirstSep(name: string, k: nat) { At(name, "::", k) && forall j | 0 <= j < k :: !At(name, "::", j) }

  lemma {:induction false} FilePartStarts(name: string, i: nat) returns (k: nat)
    requires forall j | 0 <= j < i :: !At(name, "::", j)
    ensures if Contains(name, "::") then FirstSep(name, k) && FilePartFrom(name, i) == name[..k]
      else FilePartFrom(name, i) == ""
    decreases |name| - i
  {
    k := i;
    if i < |name| && !At(name, SEP, i) { k := FilePartStarts(name, i + 1); }
  }

  // A name in a file that is not kept: before its first "::" stands one.
  predicate Outside(files: seq<string>, name: string) {
    exists k | 0 < k <= |name| - 2 :: FirstSep(name, k) && name[..k] !in files
  }

  // An edge is dropped exactly when both its ends are in files that are not kept.
  lemma DroppedIff(entries: seq<Place>, sinks: seq<Place>, files: seq<string>, e: Edge)
    ensures Admissible(FocusOf(entries, sinks, files), e) <==> !(Outside(files, e.0) && Outside(files, e.1))
  {
    OutsideIff(files, e.0);
    OutsideIff(files, e.1);
  }

  lemma OutsideIff(files: seq<string>, name: string)
    ensures Outside(files, name) <==> FilePart(name) != "" && FilePart(name) !in files
  {
    var k := FilePartStarts(name, 0);
    if m :| 0 < m <= |name| - 2 && FirstSep(name, m) && name[..m] !in files { assert m == k; }
  }

  // The edge of callee j in entry i.
  predicate StandsAt(g: Calls, e: Edge, i: nat, j: nat) {
    i < |g| && j < |g[i].1| && e == (g[i].0, g[i].1[j]) && e.1 != ""
  }

  ghost predicate Stands(g: Calls, e: Edge) { exists i: nat, j: nat :: StandsAt(g, e, i, j) }

  lemma StandsIff(g: Calls, e: Edge)
    ensures e in Edges(g) <==> Stands(g, e)
  {
    EdgesAre(g, e);
    if e in Edges(g) {
      var i :| 0 <= i < |g| && g[i].0 == e.0 && e.1 in g[i].1;
      var j :| 0 <= j < |g[i].1| && g[i].1[j] == e.1;
      assert StandsAt(g, e, i, j);
    }
  }

  // An edge at a kept entry point or sink that may be kept comes before every kept edge at none.
  lemma TargetsFirst(
      entries: seq<Place>, sinks: seq<Place>, files: seq<string>, g: Calls, maxEdges: int, n: nat, h: Edge)
    returns (m: nat)
    requires CallerOnce(g) && n < |KeptEdges(FocusOf(entries, sinks, files), g, maxEdges)|
    requires var cold := KeptEdges(FocusOf(entries, sinks, files), g, maxEdges)[n];
      !AtTarget(entries, sinks, cold.0) && !AtTarget(entries, sinks, cold.1)
    requires Stands(g, h) && (AtTarget(entries, sinks, h.0) || AtTarget(entries, sinks, h.1))
    requires !(Outside(files, h.0) && Outside(files, h.1))
    ensures m < n && KeptEdges(FocusOf(entries, sinks, files), g, maxEdges)[m] == h
  {
    var f := FocusOf(entries, sinks, files);
    var hot, cold := Chosen(Edges(g), Wanted(f, true)), Chosen(Edges(g), Wanted(f, false));
    var e := KeptEdges(f, g, maxEdges)[n];
    NameIsTarget(entries, sinks, files, e.0);
    NameIsTarget(entries, sinks, files, e.1);
    NameIsTarget(entries, sinks, files, h.0);
    NameIsTarget(entries, sinks, files, h.1);
    DroppedIff(entries, sinks, files, h);
    StandsIff(g, h);
    ChosenHas(Edges(g), Wanted(f, true), h);
    ChosenHas(Edges(g), Wanted(f, true), e);
    assert forall x | 0 <= x < |hot| :: (hot + cold)[x] == hot[x];
    m :| 0 <= m < |hot| && hot[m] == h;
    assert (hot + cold)[m] == h;
  }

  lemma CalleesInOrder(caller: string, callees: seq<string>, a: nat, b: nat) returns (j: nat)
    requires a < b < |Named(callees)|
    ensures j < |callees| && callees[j] == Named(callees)[a] != ""
    ensures From(caller, Named(callees))[a] == (caller, callees[j])
    ensures forall y | 0 <= y <= j :: (caller, callees[y]) != From(caller, Named(callees))[b]
  {
    FromAt(caller, Named(callees), a);
    FromAt(caller, Named(callees), b);
    j := FirstChosen(callees, c => c != "", a, b);
    NamedHas(callees, Named(callees)[a]);
    forall y | 0 <= y <= j ensures callees[y] != Named(callees)[b] { assert callees[..j+1][y] == callees[y]; }
  }

  // An edge of the earlier callers stands nowhere else, each caller being listed once.
  lemma OnlyBefore(g: Calls, e: Edge)
    requires CallerOnce(g) && g != [] && e in Edges(g[..|g|-1])
    ensures forall x: nat, y: nat | StandsAt(g, e, x, y) :: StandsAt(g[..|g|-1], e, x, y)
  {
    StandsIff(g[..|g|-1], e);
  }

  // The edges are listed in the order of the call graph.
  lemma {:induction false} EdgesInOrder(g: Calls, a: nat, b: nat) returns (i: nat, j: nat)
    requires CallerOnce(g) && a < b < |Edges(g)|
    ensures StandsAt(g, Edges(g)[a], i, j)
    ensures forall x: nat, y: nat | StandsAt(g, Edges(g)[b], x, y) :: i < x || (i == x && j < y)
  {
    var init, n := g[..|g|-1], |g| - 1;
    var before := Edges(init);
    if b < |before| {
      i, j := EdgesInOrder(init, a, b);
      OnlyBefore(g, before[b]);
    } else if a < |before| {
      StandsIff(init, before[a]);
      i, j :| StandsAt(init, before[a], i, j);
      FromAt(g[n].0, Named(g[n].1), b - |before|);
      assert Edges(g)[b] == From(g[n].0, Named(g[n].1))[b-|before|];
    } else {
      i := n;
      j := CalleesInOrder(g[n].0, g[n].1, a - |before|, b - |before|);
      FromAt(g[n].0, Named(g[n].1), b - |before|);
      assert Edges(g)[b] == From(g[n].0, Named(g[n].1))[b-|before|];
      assert Edges(g)[a] == From(g[n].0, Named(g[n].1))[a-|before|];
    }
  }

  // A place in what is taken is one of the hot edges, or of the cold ones.
  lemma TakenAt(f: Focus, g: Calls, maxEdges: int, kept: seq<Edge>, a: nat)
    requires kept == KeptEdges(f, g, maxEdges) && a < |kept|
    ensures var hot := Chosen(Edges(g), Wanted(f, true)); Hot(f, kept[a]) ==> a < |hot| && hot[a] == kept[a]
    ensures var hot, cold := Chosen(Edges(g), Wanted(f, true)), Chosen(Edges(g), Wanted(f, false));
      !Hot(f, kept[a]) ==> |hot| <= a < |hot| + |cold| && cold[a-|hot|] == kept[a]
  {
    var hot, cold := Chosen(Edges(g), Wanted(f, true)), Chosen(Edges(g), Wanted(f, false));
    assert kept[a] == (hot + cold)[a];
    ChosenHas(Edges(g), Wanted(f, a < |hot|), kept[a]);
  }

  // So are the kept ones, of those at targets and of the others.
  lemma KeptInOrder(f: Focus, g: Calls, maxEdges: int, kept: seq<Edge>, a: nat, b: nat) returns (m: nat, n: nat)
    requires kept == KeptEdges(f, g, maxEdges) && a < b < |kept| && Hot(f, kept[a]) == Hot(f, kept[b])
    ensures m < n < |Edges(g)| && Edges(g)[m] == kept[a] && Edges(g)[n] == kept[b]
  {
    TakenAt(f, g, maxEdges, kept, a);
    TakenAt(f, g, maxEdges, kept, b);
    if Hot(f, kept[a]) {
      m, n := ChosenOrder(Edges(g), Wanted(f, true), a, b);
    } else {
      var hot := |Chosen(Edges(g), Wanted(f, true))|;
      m, n := ChosenOrder(Edges(g), Wanted(f, false), a - hot, b - hot);
    }
  }

  // The callees of a caller in the trimmed graph follow the kept edges.
  lemma {:induction false} GroupedInOrder(kept: seq<Edge>, c: string, a: nat, b: nat) returns (i: nat, j: nat)
    requires c in Grouped(kept) && a < b < |Grouped(kept)[c]|
    ensures i < j < |kept| && kept[i] == (c, Grouped(kept)[c][a]) && kept[j] == (c, Grouped(kept)[c][b])
  {
    var init, n := kept[..|kept|-1], |kept| - 1;
    if c in Grouped(init) && b < |Grouped(init)[c]| {
      i, j := GroupedInOrder(init, c, a, b);
    } else {
      j := n;
      assert Grouped(init)[c][a] in Grouped(init)[c];
      GroupedHas(init, c, Grouped(init)[c][a]);
      i :| 0 <= i < |init| && init[i] == (c, Grouped(init)[c][a]);
    }
  }
}
