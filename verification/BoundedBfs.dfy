// Which sinks a chunk's entry reaches within a number of call hops: a breadth-first search.

module BoundedBfs {
  type Graph = map<string, seq<string>>

  function Callees(g: Graph, n: string): seq<string> { if n in g then g[n] else [] }

  ghost predicate IsPath(g: Graph, p: seq<string>) {
    p != [] && forall i | 0 < i < |p| :: p[i] in Callees(g, p[i-1])
  }

  ghost predicate PathWithin(g: Graph, from: string, to: string, hops: nat) {
    exists p: seq<string> :: IsPath(g, p) && p[0] == from && p[|p|-1] == to && |p| <= hops + 1
  }

  // What the search is to find: the other sinks on a path of at most max_hops calls, and of one
  // call even where max_hops is less.
  ghost predicate Wanted(g: Graph, start: string, sinks: set<string>, maxHops: int, v: string) {
    start != "" && v in sinks && v != start && PathWithin(g, start, v, Reach(maxHops))
  }

  function Reach(maxHops: int): nat { if maxHops < 1 then 1 else maxHops }

  // ---- balls around the start ----

  ghost predicate InBall(g: Graph, start: string, v: string, d: nat)
    decreases d
  {
    v == start || (d > 0 && exists u :: InBall(g, start, u, d - 1) && v in Callees(g, u))
  }

  lemma {:induction false} BallGrows(
      g: Graph, start: string, v: string, d: nat, e: nat)
    requires InBall(g, start, v, d) && d <= e
    ensures InBall(g, start, v, e)
    decreases d
  {
    if v != start {
      var u :| InBall(g, start, u, d - 1) && v in Callees(g, u);
      BallGrows(g, start, u, d - 1, e - 1);
    }
  }

  lemma {:induction false} BallHasPath(g: Graph, start: string, v: string, d: nat)
    requires InBall(g, start, v, d)
    ensures PathWithin(g, start, v, d)
    decreases d
  {
    if v == start {
      assert IsPath(g, [start]);
    } else {
      var u :| InBall(g, start, u, d - 1) && v in Callees(g, u);
      BallHasPath(g, start, u, d - 1);
      var p :| IsPath(g, p) && p[0] == start && p[|p|-1] == u && |p| <= d;
      assert IsPath(g, p + [v]);
    }
  }

  lemma {:induction false} PathIsInBall(g: Graph, p: seq<string>, d: nat)
    requires IsPath(g, p) && |p| <= d + 1
    ensures InBall(g, p[0], p[|p|-1], d)
  {
    if |p| > 1 {
      var q := p[..|p|-1];
      assert IsPath(g, q);
      PathIsInBall(g, q, d - 1);
    }
  }

  lemma BallsArePaths(g: Graph, start: string, v: string, d: nat)
    ensures InBall(g, start, v, d) <==> PathWithin(g, start, v, d)
  {
    if InBall(g, start, v, d) { BallHasPath(g, start, v, d); }
    if PathWithin(g, start, v, d) {
      var p :| IsPath(g, p) && p[0] == start && p[|p|-1] == v && |p| <= d + 1;
      PathIsInBall(g, p, d);
    }
  }

  // ---- the search ----

  ghost predicate AtDistance(g: Graph, start: string, v: string, d: nat) {
    InBall(g, start, v, d) && (d > 0 ==> !InBall(g, start, v, d - 1))
  }

  ghost predicate Queued(q: seq<(string, nat)>, v: string) { exists i :: 0 <= i < |q| && q[i].0 == v }

  // Queued nodes stand at their true distance, level or one more, nearest first.
  ghost predicate QueueFits(g: Graph, start: string, q: seq<(string, nat)>, seen: set<string>, level: nat,
                            reach: nat) {
    && (forall i | 0 <= i < |q| :: q[i].0 in seen && AtDistance(g, start, q[i].0, q[i].1))
    && (forall i | 0 <= i < |q| :: level <= q[i].1 <= level + 1 && q[i].1 < reach)
    && (forall i, j | 0 <= i < j < |q| :: q[i].1 <= q[j].1)
  }

  ghost predicate BallSeen(g: Graph, start: string, seen: set<string>, d: nat) {
    forall v | InBall(g, start, v, d) :: v in seen
  }

  ghost predicate SeenInBall(g: Graph, start: string, seen: set<string>, reach: nat) {
    forall v | v in seen :: InBall(g, start, v, reach)
  }

  ghost predicate Expanded(g: Graph, seen: set<string>, v: string) {
    forall w | w in Callees(g, v) :: w in seen
  }

  // Every seen node inside the last ball is queued or has all its callees seen.
  ghost predicate NoneForgotten(g: Graph, start: string, q: seq<(string, nat)>, seen: set<string>, reach: nat,
                                but: set<string>) {
    forall v | v in seen && v !in but && reach > 0 && InBall(g, start, v, reach - 1) ::
      Queued(q, v) || Expanded(g, seen, v)
  }

  function Nodes(g: Graph, start: string): set<string> {
    {start} + set n, i | n in g && 0 <= i < |g[n]| :: g[n][i]
  }

  lemma NextLevel(
      g: Graph, start: string, q: seq<(string, nat)>, seen: set<string>, level: nat, reach: nat)
    requires QueueFits(g, start, q, seen, level, reach) && BallSeen(g, start, seen, level)
    requires NoneForgotten(g, start, q, seen, reach, {})
    requires level < reach && forall i | 0 <= i < |q| :: q[i].1 > level
    ensures BallSeen(g, start, seen, level + 1)
  {
    forall v | InBall(g, start, v, level + 1) ensures v in seen {
      if v == start {
        assert InBall(g, start, v, level);
      } else {
        var u :| InBall(g, start, u, level) && v in Callees(g, u);
        BallGrows(g, start, u, level, reach - 1);
        assert !Queued(q, u);
        assert Expanded(g, seen, u);
      }
    }
  }

  lemma {:induction false} EmptyQueueMeansDone(
      g: Graph, start: string, seen: set<string>, d: nat, reach: nat)
    requires start in seen && NoneForgotten(g, start, [], seen, reach, {}) && d <= reach
    ensures BallSeen(g, start, seen, d)
  {
    forall v | InBall(g, start, v, d) ensures v in seen {
      if v != start {
        var u :| InBall(g, start, u, d - 1) && v in Callees(g, u);
        EmptyQueueMeansDone(g, start, seen, d - 1, reach);
        BallGrows(g, start, u, d - 1, reach - 1);
        assert Expanded(g, seen, u);
      }
    }
  }

  // A callee not yet seen is exactly one call further than the node being expanded.
  lemma Discovered(
      g: Graph, start: string, q: seq<(string, nat)>, seen: set<string>, node: string, w: string, d: nat,
      reach: nat)
    requires InBall(g, start, node, d) && BallSeen(g, start, seen, d) && d < reach
    requires w in Callees(g, node) && w !in seen
    ensures AtDistance(g, start, w, d + 1) && InBall(g, start, w, reach)
    ensures d + 1 >= reach ==> !InBall(g, start, w, reach - 1)
  {
    BallGrows(g, start, w, d + 1, reach);
  }

  lemma StillNotForgotten(
      g: Graph, start: string, q: seq<(string, nat)>, r: seq<(string, nat)>, seen: set<string>, reach: nat,
      node: string, w: string)
    requires NoneForgotten(g, start, q, seen, reach, {node}) && q <= r
    requires reach > 0 && (InBall(g, start, w, reach - 1) ==> Queued(r, w))
    ensures NoneForgotten(g, start, r, seen + {w}, reach, {node})
  {
    forall v | v in seen + {w} && v != node && InBall(g, start, v, reach - 1)
      ensures Queued(r, v) || Expanded(g, seen + {w}, v)
    {
      if v != w && Queued(q, v) {
        var i :| 0 <= i < |q| && q[i].0 == v;
        assert r[i].0 == v;
      }
    }
  }

  lemma Popped(
      g: Graph, start: string, q: seq<(string, nat)>, seen: set<string>, reach: nat)
    requires q != [] && NoneForgotten(g, start, q, seen, reach, {})
    ensures NoneForgotten(g, start, q[1..], seen, reach, {q[0].0})
  {
    forall v | v in seen && v != q[0].0 && reach > 0 && InBall(g, start, v, reach - 1)
      ensures Queued(q[1..], v) || Expanded(g, seen, v)
    {
      if Queued(q, v) {
        var i :| 0 <= i < |q| && q[i].0 == v;
        assert q[1..][i-1].0 == v;
      }
    }
  }

  lemma CalleesAreNodes(g: Graph, start: string, n: string)
    ensures forall w | w in Callees(g, n) :: w in Nodes(g, start)
  {
  }

  lemma OneFewer(all: set<string>, seen: set<string>, w: string)
    requires w in all && w !in seen
    ensures |all - (seen + {w})| == |all - seen| - 1
  {
    assert all - seen == (all - (seen + {w})) + {w};
  }

  // What holds of queue and seen nodes while the callees of the nodes in `open` are being looked at.
  ghost predicate Fits(g: Graph, start: string, q: seq<(string, nat)>, seen: set<string>, level: nat, reach: nat,
                       open: set<string>) {
    && QueueFits(g, start, q, seen, level, reach)
    && BallSeen(g, start, seen, level)
    && SeenInBall(g, start, seen, reach)
    && NoneForgotten(g, start, q, seen, reach, open)
  }

  lemma Sighted(
      g: Graph, start: string, q: seq<(string, nat)>, r: seq<(string, nat)>, seen: set<string>,
      more: set<string>, node: string, w: string, d: nat, reach: nat)
    requires Fits(g, start, q, seen, d, reach, {node}) && InBall(g, start, node, d) && d < reach
    requires w in Callees(g, node) && w !in seen && more == seen + {w}
    requires r == if d + 1 < reach then q + [(w, d + 1)] else q
    ensures Fits(g, start, r, more, d, reach, {node})
  {
    Discovered(g, start, q, seen, node, w, d, reach);
    if d + 1 < reach { assert r[|q|] == (w, d + 1); }
    StillNotForgotten(g, start, q, r, seen, reach, node, w);
    Enqueued(g, start, q, r, seen, more, w, d, reach);
  }

  lemma Enqueued(
      g: Graph, start: string, q: seq<(string, nat)>, r: seq<(string, nat)>, seen: set<string>,
      more: set<string>, w: string, d: nat, reach: nat)
    requires QueueFits(g, start, q, seen, d, reach) && more == seen + {w} && AtDistance(g, start, w, d + 1)
    requires r == if d + 1 < reach then q + [(w, d + 1)] else q
    ensures QueueFits(g, start, r, more, d, reach)
  {
  }

  ghost predicate AllIn(ws: seq<string>, seen: set<string>) { forall w | w in ws :: w in seen }

  lemma NodeDone(
      g: Graph, start: string, q: seq<(string, nat)>, seen: set<string>, level: nat, reach: nat, node: string)
    requires Fits(g, start, q, seen, level, reach, {node})
    requires AllIn(Callees(g, node), seen)
    ensures Fits(g, start, q, seen, level, reach, {})
  {
  }

  lemma Taken(
      g: Graph, start: string, q: seq<(string, nat)>, seen: set<string>, level: nat, reach: nat)
    requires q != [] && level < reach && Fits(g, start, q, seen, level, reach, {})
    ensures q[0].1 < reach && InBall(g, start, q[0].0, q[0].1) && q[0].0 in seen
    ensures Fits(g, start, q[1..], seen, q[0].1, reach, {q[0].0})
  {
    if q[0].1 > level { NextLevel(g, start, q, seen, level, reach); }
    Popped(g, start, q, seen, reach);
    PopFits(g, start, q, seen, level, reach);
  }

  lemma PopFits(
      g: Graph, start: string, q: seq<(string, nat)>, seen: set<string>, level: nat, reach: nat)
    requires q != [] && QueueFits(g, start, q, seen, level, reach)
    ensures QueueFits(g, start, q[1..], seen, q[0].1, reach)
  {
  }

  lemma AtStart(g: Graph, start: string, reach: nat)
    requires reach > 0
    ensures Fits(g, start, [(start, 0)], {start}, 0, reach, {})
  {
    assert [(start, 0)][0].0 == start;
  }

  lemma AtEnd(g: Graph, start: string, seen: set<string>, level: nat, reach: nat)
    requires start in seen && Fits(g, start, [], seen, level, reach, {})
    ensures forall v :: v in seen <==> PathWithin(g, start, v, reach)
  {
    EmptyQueueMeansDone(g, start, seen, reach, reach);
    forall v ensures v in seen <==> PathWithin(g, start, v, reach) { BallsArePaths(g, start, v, reach); }
  }

  // Queue, seen nodes and hits after looking at one callee, and at several.
  datatype Search = Search(q: seq<(string, nat)>, seen: set<string>, hit: set<string>)

  function Visited(s: Search, w: string, d: nat, sinks: set<string>, maxHops: int): Search {
    if w in s.seen then s
    else Search(if d + 1 < maxHops then s.q + [(w, d + 1)] else s.q, s.seen + {w},
                if w in sinks then s.hit + {w} else s.hit)
  }

  function AllVisited(s: Search, ws: seq<string>, d: nat, sinks: set<string>, maxHops: int): Search {
    if ws == [] then s
    else Visited(AllVisited(s, ws[..|ws|-1], d, sinks, maxHops), ws[|ws|-1], d, sinks, maxHops)
  }

  lemma VisitFits(
      g: Graph, start: string, s: Search, u: Search, node: string, w: string, d: nat, sinks: set<string>,
      maxHops: int)
    requires Fits(g, start, s.q, s.seen, d, Reach(maxHops), {node}) && u == Visited(s, w, d, sinks, maxHops)
    requires InBall(g, start, node, d) && d < Reach(maxHops) && w in Callees(g, node)
    ensures Fits(g, start, u.q, u.seen, d, Reach(maxHops), {node}) && u.seen == s.seen + {w}
    ensures |Nodes(g, start) - u.seen| + |u.q| <= |Nodes(g, start) - s.seen| + |s.q|
  {
    if w in s.seen {
      assert s.seen == s.seen + {w};
    } else {
      CalleesAreNodes(g, start, node);
      OneFewer(Nodes(g, start), s.seen, w);
      Sighted(g, start, s.q, u.q, s.seen, u.seen, node, w, d, Reach(maxHops));
    }
  }

  lemma {:induction false} AllVisitsFit(
      g: Graph, start: string, s: Search, u: Search, node: string, ws: seq<string>, n: nat, d: nat,
      sinks: set<string>, maxHops: int)
    requires Fits(g, start, s.q, s.seen, d, Reach(maxHops), {node})
    requires InBall(g, start, node, d) && d < Reach(maxHops) && ws == Callees(g, node)
    requires n <= |ws| && u == AllVisited(s, ws[..n], d, sinks, maxHops)
    ensures Fits(g, start, u.q, u.seen, d, Reach(maxHops), {node})
    ensures |Nodes(g, start) - u.seen| + |u.q| <= |Nodes(g, start) - s.seen| + |s.q|
    decreases n
  {
    if n > 0 {
      var prior := AllVisited(s, ws[..n-1], d, sinks, maxHops);
      AllVisitsFit(g, start, s, prior, node, ws, n - 1, d, sinks, maxHops);
      assert ws[..n][..n-1] == ws[..n-1];
      VisitFits(g, start, prior, u, node, ws[n-1], d, sinks, maxHops);
    }
  }

  lemma {:induction false} AllSeen(
      s: Search, ws: seq<string>, d: nat, sinks: set<string>, maxHops: int)
    ensures AllIn(ws, AllVisited(s, ws, d, sinks, maxHops).seen)
  {
    if ws != [] {
      AllSeen(s, ws[..|ws|-1], d, sinks, maxHops);
      assert ws == ws[..|ws|-1] + [ws[|ws|-1]];
    }
  }

  lemma {:induction false} HitsAreSeenSinks(
      s: Search, ws: seq<string>, start: string, d: nat, sinks: set<string>, maxHops: int)
    requires start in s.seen && s.hit == s.seen * sinks - {start}
    ensures var u := AllVisited(s, ws, d, sinks, maxHops);
      u.hit == u.seen * sinks - {start} && start in u.seen
  {
    if ws != [] { HitsAreSeenSinks(s, ws[..|ws|-1], start, d, sinks, maxHops); }
  }

  // Taking the first node off the queue and looking at its callees.
  lemma StepFits(
      g: Graph, start: string, s: Search, u: Search, level: nat, sinks: set<string>, maxHops: int)
    requires s.q != [] && level < Reach(maxHops) && Fits(g, start, s.q, s.seen, level, Reach(maxHops), {})
    requires u == AllVisited(s.(q := s.q[1..]), Callees(g, s.q[0].0), s.q[0].1, sinks, maxHops)
    ensures s.q[0].1 < Reach(maxHops) && Fits(g, start, u.q, u.seen, s.q[0].1, Reach(maxHops), {})
    ensures |Nodes(g, start) - u.seen| + |u.q| < |Nodes(g, start) - s.seen| + |s.q|
  {
    Taken(g, start, s.q, s.seen, level, Reach(maxHops));
    var callees := Callees(g, s.q[0].0);
    assert callees[..|callees|] == callees;
    AllVisitsFit(g, start, s.(q := s.q[1..]), u, s.q[0].0, callees, |callees|, s.q[0].1, sinks, maxHops);
    AllSeen(s.(q := s.q[1..]), callees, s.q[0].1, sinks, maxHops);
    NodeDone(g, start, u.q, u.seen, s.q[0].1, Reach(maxHops), s.q[0].0);
  }

  // The search ends, on graphs with cycles too, and finds exactly the sinks wanted.
  method BfsReaches(start: string, g: Graph, sinks: set<string>, maxHops: int) returns (hit: set<string>)
    ensures forall v :: v in hit <==> Wanted(g, start, sinks, maxHops, v)
  {
    if start == "" { return {}; }
    hit := {};
    var seen := {start};
    var q: seq<(string, nat)> := [(start, 0)];
    ghost var level: nat := 0;
    AtStart(g, start, Reach(maxHops));
    while q != []
      invariant start in seen && level < Reach(maxHops) && Fits(g, start, q, seen, level, Reach(maxHops), {})
      invariant hit == seen * sinks - {start}
      decreases |Nodes(g, start) - seen| + |q|
    {
      ghost var before := Search(q, seen, hit);
      var (node, d) := q[0];
      var callees := Callees(g, node);
      q := q[1..];
      for k := 0 to |callees|
        invariant Search(q, seen, hit) == AllVisited(before.(q := before.q[1..]), callees[..k], d, sinks, maxHops)
      {
        var w := callees[k];
        assert callees[..k+1][..k] == callees[..k];
        if w in seen { continue; }
        seen := seen + {w};
        if w in sinks { hit := hit + {w}; }
        if d + 1 < maxHops { q := q + [(w, d + 1)]; }
      }
      assert callees[..|callees|] == callees;
      HitsAreSeenSinks(before.(q := before.q[1..]), callees, start, d, sinks, maxHops);
      StepFits(g, start, before, Search(q, seen, hit), level, sinks, maxHops);
      level := d;
    }
    AtEnd(g, start, seen, level, Reach(maxHops));
  }
}
