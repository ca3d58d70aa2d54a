// What deleting leaves in the store, and what a snapshot counts.

module StoreTables {
  import opened Common
  import opened CallGraphRows
  import opened GraphStore

  // A deleted run is a run no more, and has nothing left to load.
  lemma DeletedForgets(
      t: Tables, run: string, step: string, valid: (string, string) -> bool, fetch: Rows -> seq<string>)
    requires Valid(t) && Fetches(fetch)
    ensures var u := Deleted(t, run);
      run !in u.runs && CkptAt(u, run, step, valid) == None && GraphAt(u, run, step, fetch) == None
  {
    ApplyKeepsValid(t, DeleteRun(run));
    DeletedCkpts(t, run, step);
  }

  predicate EntryRow(r: NodeRow) { r.isEntry }

  predicate SinkRow(r: NodeRow) { r.isSink }

  // How many of the listed rows have a flag.
  function Flagged(nodes: map<string, NodeRow>, listing: seq<string>, flag: NodeRow -> bool): nat
    requires forall i | 0 <= i < |listing| :: listing[i] in nodes
  {
    if listing == [] then 0
    else Flagged(nodes, listing[..|listing|-1], flag) + if flag(nodes[listing[|listing|-1]]) then 1 else 0
  }

  lemma {:induction false} FlaggedIs(nodes: map<string, NodeRow>, listing: seq<string>, flag: NodeRow -> bool)
    requires forall i | 0 <= i < |listing| :: listing[i] in nodes
    requires forall i, j | 0 <= i < j < |listing| :: listing[i] != listing[j]
    ensures Flagged(nodes, listing, flag) == |set q | q in listing && flag(nodes[q])|
  {
    if listing != [] {
      var init, last := listing[..|listing|-1], listing[|listing|-1];
      FlaggedIs(nodes, init, flag);
      var before := set q | q in init && flag(nodes[q]);
      var now := set q | q in listing && flag(nodes[q]);
      assert forall q :: q in listing <==> q in init || q == last;
      assert now == if flag(nodes[last]) then before + {last} else before;
      assert last !in before;
    }
  }

  // A snapshot counts its rows, its edges, and the rows that are entry points or sinks, listed in
  // whatever order.
  lemma CountsAreSums(rows: Rows, listing: seq<string>)
    requires IsFetch(rows, listing)
    ensures CountsOf(rows) == Counts(
      |listing|, |rows.edges|, Flagged(rows.nodes, listing, EntryRow), Flagged(rows.nodes, listing, SinkRow))
  {
    EntriesAreSummed(rows.nodes, listing);
    SinksAreSummed(rows.nodes, listing);
  }

  ghost predicate Lists(nodes: map<string, NodeRow>, listing: seq<string>) {
    && (forall q :: q in listing <==> q in nodes)
    && (forall i, j | 0 <= i < j < |listing| :: listing[i] != listing[j])
  }

  lemma EntriesAreSummed(nodes: map<string, NodeRow>, listing: seq<string>)
    requires Lists(nodes, listing)
    ensures (forall i | 0 <= i < |listing| :: listing[i] in nodes)
    ensures Flagged(nodes, listing, EntryRow) == |set q | q in nodes && nodes[q].isEntry|
  {
    var flag: NodeRow -> bool := EntryRow;
    FlaggedIs(nodes, listing, flag);
    assert (set q | q in nodes && nodes[q].isEntry) == (set q | q in listing && flag(nodes[q]));
  }

  lemma SinksAreSummed(nodes: map<string, NodeRow>, listing: seq<string>)
    requires Lists(nodes, listing)
    ensures (forall i | 0 <= i < |listing| :: listing[i] in nodes)
    ensures Flagged(nodes, listing, SinkRow) == |set q | q in nodes && nodes[q].isSink|
  {
    var flag: NodeRow -> bool := SinkRow;
    FlaggedIs(nodes, listing, flag);
    assert (set q | q in nodes && nodes[q].isSink) == (set q | q in listing && flag(nodes[q]));
  }
}
