// The state store: runs, checkpoints, and content-addressed call-graph snapshots with their node
// rows, edge rows and stage references.  Foreign keys cascade on delete.

module GraphStore {
  import opened Common
  import opened CallGraphRows
  import opened GraphNormalForm

  // SHA-256 of the rows, taken to be free of collisions.
  datatype GraphId = Digest(rows: Rows)

  datatype Counts = Counts(nodes: nat, edges: nat, entries: nat, sinks: nat)

  datatype Tables = Tables(
    runs: set<string>,
    ckpts: map<(string, string), string>,            // (run, step) -> payload
    snaps: map<(string, GraphId), Counts>,
    nodes: map<(string, GraphId, string), NodeRow>,
    edges: set<(string, GraphId, string, string)>,
    refs: map<(string, string), GraphId>)            // (run, step) -> snapshot of that run

  const CKPT_MAX := 100 * 1024 * 1024

  function CountsOf(rows: Rows): Counts {
    Counts(|rows.nodes|, |rows.edges|,
           |set q | q in rows.nodes && rows.nodes[q].isEntry|, |set q | q in rows.nodes && rows.nodes[q].isSink|)
  }

  // ---- what each operation does to the tables ----

  function Registered(t: Tables, run: string): Tables { t.(runs := t.runs + {run}) }

  function CkptSaved(t: Tables, run: string, step: string, payload: string): Tables {
    if |payload| > CKPT_MAX then t
    else t.(runs := t.runs + {run}, ckpts := t.ckpts[(run, step) := payload])
  }

  function GraphSaved(t: Tables, run: string, step: string, g: Graph): Tables {
    match RowsOf(g)
    case None => t
    case Some(rows) => RowsSaved(t, run, step, rows)
  }

  function RowsSaved(t: Tables, run: string, step: string, rows: Rows): Tables {
    var id := Digest(rows);
    var u := t.(runs := t.runs + {run}, refs := t.refs[(run, step) := id]);
    if (run, id) in t.snaps then u else SnapshotAdded(u, run, id)
  }

  function SnapshotAdded(t: Tables, run: string, id: GraphId): Tables {
    t.(snaps := t.snaps[(run, id) := CountsOf(id.rows)],
       nodes := t.nodes + map k | k in (set q | q in id.rows.nodes :: (run, id, q)) :: id.rows.nodes[k.2],
       edges := t.edges + set e | e in id.rows.edges :: (run, id, e.0, e.1))
  }

  // Deleting the snapshots of a run drops their node rows, edge rows and stage references.
  function SnapshotsDropped(t: Tables, run: string): Tables {
    var gone := set k | k in t.snaps && k.0 == run;
    t.(snaps := map k | k in t.snaps && k !in gone :: t.snaps[k],
       nodes := map k | k in t.nodes && (k.0, k.1) !in gone :: t.nodes[k],
       edges := (set e | e in t.edges && (e.0, e.1) !in gone),
       refs := map k | k in t.refs && (k.0, t.refs[k]) !in gone :: t.refs[k])
  }

  function CkptsDropped(t: Tables, run: string): Tables {
    t.(ckpts := map k | k in t.ckpts && k.0 != run :: t.ckpts[k])
  }

  function Reset(t: Tables, run: string): Tables { SnapshotsDropped(CkptsDropped(t, run), run) }

  // Deleting the run row, if there is one, cascades to its checkpoints, snapshots and references.
  function Deleted(t: Tables, run: string): Tables {
    if run !in t.runs then t
    else
      var u := Reset(t, run);
      u.(runs := u.runs - {run}, refs := RefsWithout(u.refs, run))
  }

  function RefsWithout(refs: map<(string, string), GraphId>, run: string): map<(string, string), GraphId> {
    map k | k in refs && k.0 != run :: refs[k]
  }

  // ---- what a load reads ----

  function CkptAt(t: Tables, run: string, step: string, valid: (string, string) -> bool): Option<string> {
    if (run, step) in t.ckpts && |t.ckpts[(run, step)]| <= CKPT_MAX && valid(step, t.ckpts[(run, step)])
    then Some(t.ckpts[(run, step)]) else None
  }

  function RowsAt(t: Tables, run: string, id: GraphId): Rows {
    Rows(map q | q in (set k | k in t.nodes && k.0 == run && k.1 == id :: k.2) :: t.nodes[(run, id, q)],
         set e | e in t.edges && e.0 == run && e.1 == id :: (e.2, e.3))
  }

  ghost predicate Fetches(fetch: Rows -> seq<string>) { forall rows :: IsFetch(rows, fetch(rows)) }

  ghost function GraphAt(t: Tables, run: string, step: string, fetch: Rows -> seq<string>): Option<Loaded>
    requires Fetches(fetch)
  {
    if (run, step) !in t.refs then None
    else
      var rows := RowsAt(t, run, t.refs[(run, step)]);
      assert IsFetch(rows, fetch(rows));
      Some(LoadedFrom(rows, fetch(rows)))
  }

  // ---- integrity ----

  // Checkpoints, snapshots and references have their parents; a snapshot's counts fit its rows.
  ghost predicate ParentsKept(t: Tables) {
    && (forall k | k in t.ckpts :: k.0 in t.runs)
    && (forall k | k in t.snaps :: k.0 in t.runs && WellStored(k.1.rows) && t.snaps[k] == CountsOf(k.1.rows))
    && (forall k | k in t.refs :: k.0 in t.runs && (k.0, t.refs[k]) in t.snaps)
  }

  // The node rows and edge rows are those the snapshot ids were made from.
  ghost predicate NodesFit(t: Tables) {
    && (forall k :: k in t.nodes <==> (k.0, k.1) in t.snaps && k.2 in k.1.rows.nodes)
    && (forall k | k in t.nodes :: t.nodes[k] == k.1.rows.nodes[k.2])
  }

  ghost predicate EdgesFit(t: Tables) {
    forall k :: k in t.edges <==> (k.0, k.1) in t.snaps && (k.2, k.3) in k.1.rows.edges
  }

  ghost predicate Valid(t: Tables) { ParentsKept(t) && NodesFit(t) && EdgesFit(t) }

  const EMPTY := Tables({}, map[], map[], map[], {}, map[])

  datatype Op =
    | Register(run: string)
    | SaveCkpt(run: string, step: string, payload: string)
    | SaveGraph(run: string, step: string, g: Graph)
    | ResetRun(run: string)
    | DeleteRun(run: string)

  function Apply(t: Tables, op: Op): Tables {
    match op
    case Register(run) => Registered(t, run)
    case SaveCkpt(run, step, payload) => CkptSaved(t, run, step, payload)
    case SaveGraph(run, step, g) => GraphSaved(t, run, step, g)
    case ResetRun(run) => Reset(t, run)
    case DeleteRun(run) => Deleted(t, run)
  }

  function ApplyAll(ops: seq<Op>): Tables {
    if ops == [] then EMPTY else Apply(ApplyAll(ops[..|ops|-1]), ops[|ops|-1])
  }

  lemma AddingKeepsNodes(t: Tables, run: string, id: GraphId)
    requires NodesFit(t) && (run, id) !in t.snaps
    ensures NodesFit(SnapshotAdded(t, run, id))
  {
    var added := set q | q in id.rows.nodes :: (run, id, q);
    forall k: (string, GraphId, string)
      ensures k in added <==> k.0 == run && k.1 == id && k.2 in id.rows.nodes
    {
      if k.0 == run && k.1 == id && k.2 in id.rows.nodes { assert k == (run, id, k.2); }
    }
  }

  lemma AddingKeepsEdges(t: Tables, run: string, id: GraphId)
    requires EdgesFit(t) && (run, id) !in t.snaps
    ensures EdgesFit(SnapshotAdded(t, run, id))
  {
    var u := SnapshotAdded(t, run, id);
    forall k ensures k in u.edges <==> (k.0, k.1) in u.snaps && (k.2, k.3) in k.1.rows.edges {
      var added := set e | e in id.rows.edges :: (run, id, e.0, e.1);
      if k.0 == run && k.1 == id && (k.2, k.3) in id.rows.edges { assert k == (run, id, (k.2, k.3).0, (k.2, k.3).1); }
    }
  }

  lemma AddingKeepsParents(
      t: Tables, u: Tables, run: string, step: string, rows: Rows)
    requires ParentsKept(t) && WellStored(rows) && u == RowsSaved(t, run, step, rows)
    ensures ParentsKept(u)
  {
    var id := Digest(rows);
    if (run, id) in t.snaps {
      assert t.snaps[(run, id)] == CountsOf(id.rows);
      assert t.snaps == t.snaps[(run, id) := CountsOf(id.rows)];
    }
    ParentsOfRef(t, u, run, step, id);
  }

  lemma ParentsOfRef(t: Tables, u: Tables, run: string, step: string, id: GraphId)
    requires ParentsKept(t) && WellStored(id.rows)
    requires u.snaps == t.snaps[(run, id) := CountsOf(id.rows)]
    requires u.runs == t.runs + {run} && u.ckpts == t.ckpts && u.refs == t.refs[(run, step) := id]
    ensures ParentsKept(u)
  {
  }

  lemma AddingKeepsRows(t: Tables, v: Tables, run: string, step: string, rows: Rows)
    requires NodesFit(t) && EdgesFit(t) && v == RowsSaved(t, run, step, rows)
    ensures NodesFit(v) && EdgesFit(v)
  {
    var id := Digest(rows);
    var u := t.(runs := t.runs + {run}, refs := t.refs[(run, step) := id]);
    assert NodesFit(u) && EdgesFit(u);
    if (run, id) !in t.snaps {
      AddingKeepsNodes(u, run, id);
      AddingKeepsEdges(u, run, id);
    }
  }

  lemma SavingKeepsValid(
      t: Tables, u: Tables, run: string, step: string, rows: Rows)
    requires Valid(t) && WellStored(rows) && u == RowsSaved(t, run, step, rows)
    ensures Valid(u) && (run, step) in u.refs && u.refs[(run, step)] == Digest(rows)
  {
    AddingKeepsParents(t, u, run, step, rows);
    AddingKeepsRows(t, u, run, step, rows);
  }

  lemma DroppingKeepsValid(t: Tables, run: string)
    requires Valid(t)
    ensures Valid(Reset(t, run))
    ensures forall k | k in Reset(t, run).snaps :: k.0 != run
    ensures forall k | k in Reset(t, run).refs :: k.0 != run
    ensures forall k | k in Reset(t, run).ckpts :: k.0 != run
  {
    var u := Reset(t, run);
    assert forall k :: k in u.snaps <==> k in t.snaps && k.0 != run;
    assert ParentsKept(u);
    assert NodesFit(u);
    assert EdgesFit(u);
  }

  lemma DeletingKeepsValid(t: Tables, u: Tables, v: Tables, run: string)
    requires Valid(t) && u == Reset(t, run) && v == Deleted(t, run)
    ensures Valid(v)
  {
    if run in t.runs {
      DroppingKeepsValid(t, run);
      NothingToDrop(u.refs, run);
      RunRowDropped(u, v, run);
    }
  }

  lemma NothingToDrop(refs: map<(string, string), GraphId>, run: string)
    requires forall k | k in refs :: k.0 != run
    ensures RefsWithout(refs, run) == refs
  {
  }

  lemma RunRowDropped(u: Tables, v: Tables, run: string)
    requires Valid(u)
    requires forall k | k in u.snaps :: k.0 != run
    requires forall k | k in u.refs :: k.0 != run
    requires forall k | k in u.ckpts :: k.0 != run
    requires v == u.(runs := u.runs - {run})
    ensures Valid(v)
  {
    assert ParentsKept(v);
    assert NodesFit(v);
    assert EdgesFit(v);
  }

  lemma ApplyKeepsValid(t: Tables, op: Op)
    requires Valid(t)
    ensures Valid(Apply(t, op))
  {
    match op
    case Register(_) =>
    case SaveCkpt(_, _, _) =>
    case SaveGraph(run, step, g) =>
      if RowsOf(g).Some? {
        SavedIsWellStored(g, RowsOf(g).value);
        SavingKeepsValid(t, GraphSaved(t, run, step, g), run, step, RowsOf(g).value);
      }
    case ResetRun(run) => DroppingKeepsValid(t, run);
    case DeleteRun(run) => DeletingKeepsValid(t, Reset(t, run), Deleted(t, run), run);
  }

  // After any sequence of operations every row has its parent and every snapshot its own rows.
  lemma {:induction false} AlwaysValid(ops: seq<Op>)
    ensures Valid(ApplyAll(ops))
  {
    if ops != [] {
      AlwaysValid(ops[..|ops|-1]);
      ApplyKeepsValid(ApplyAll(ops[..|ops|-1]), ops[|ops|-1]);
    }
  }

  // In a valid store a stage reference leads back to exactly the rows its id was made from.
  lemma RowsAtRef(t: Tables, run: string, id: GraphId)
    requires Valid(t) && (run, id) in t.snaps
    ensures RowsAt(t, run, id) == id.rows
  {
    NodesAtRef(t, run, id);
    EdgesAtRef(t, run, id);
  }

  lemma NodesAtRef(t: Tables, run: string, id: GraphId)
    requires NodesFit(t) && (run, id) in t.snaps
    ensures RowsAt(t, run, id).nodes == id.rows.nodes
  {
    var nodes := RowsAt(t, run, id).nodes;
    forall q ensures q in nodes <==> q in id.rows.nodes {
      var k := (run, id, q);
      assert k in t.nodes <==> q in id.rows.nodes;
    }
    forall q | q in nodes ensures nodes[q] == id.rows.nodes[q] {
      var k := (run, id, q);
      assert k in t.nodes;
    }
  }

  lemma EdgesAtRef(t: Tables, run: string, id: GraphId)
    requires EdgesFit(t) && (run, id) in t.snaps
    ensures RowsAt(t, run, id).edges == id.rows.edges
  {
    var edges := RowsAt(t, run, id).edges;
    forall e ensures e in edges <==> e in id.rows.edges {
      var k := (run, id, e.0, e.1);
      assert k in t.edges <==> (e.0, e.1) in id.rows.edges;
    }
  }

  // Over any history: a reference names a snapshot of its run with the right counts, and a load
  // finds the saved nodes as callers and the saved edges, which join them, as calls.
  lemma LoadIsFaithful(
      ops: seq<Op>, run: string, step: string, fetch: Rows -> seq<string>, c: string, d: string)
    requires Fetches(fetch) && (run, step) in ApplyAll(ops).refs
    ensures var t := ApplyAll(ops); var id := t.refs[(run, step)];
      && (run, id) in t.snaps && t.snaps[(run, id)] == CountsOf(id.rows)
      && GraphAt(t, run, step, fetch) == Some(LoadedFrom(id.rows, fetch(id.rows)))
      && var calls := GraphAt(t, run, step, fetch).value.calls;
      && calls.Keys == id.rows.nodes.Keys
      && (c in calls && d in calls[c] <==> (c, d) in id.rows.edges)
      && ((c, d) in id.rows.edges ==> c in id.rows.nodes && d in id.rows.nodes && c != "" && d != "")
  {
    AlwaysValid(ops);
    var t := ApplyAll(ops);
    var rows := t.refs[(run, step)].rows;
    assert (run, t.refs[(run, step)]) in t.snaps;
    RowsAtRef(t, run, t.refs[(run, step)]);
    LoadedCallers(rows);
    CallsAreEdges(rows, c, d);
  }

  lemma LoadAtRef(t: Tables, run: string, step: string, fetch: Rows -> seq<string>)
    requires Valid(t) && Fetches(fetch) && (run, step) in t.refs
    ensures GraphAt(t, run, step, fetch) == Some(LoadedFrom(t.refs[(run, step)].rows, fetch(t.refs[(run, step)].rows)))
  {
    RowsAtRef(t, run, t.refs[(run, step)]);
  }

  lemma LoadAfterSave(
      t: Tables, u: Tables, run: string, step: string, g: Graph, rows: Rows, fetch: Rows -> seq<string>)
    requires Valid(t) && Fetches(fetch) && RowsOf(g) == Some(rows) && u == GraphSaved(t, run, step, g)
    ensures Valid(u) && GraphAt(u, run, step, fetch) == Some(LoadedFrom(rows, fetch(rows)))
  {
    SavedIsWellStored(g, rows);
    SavingKeepsValid(t, u, run, step, rows);
    LoadAtRef(u, run, step, fetch);
  }

  // An operation on one run leaves what any other run can load as it was.
  lemma RunsAreIsolated(t: Tables, op: Op, run: string, step: string,
                        valid: (string, string) -> bool, fetch: Rows -> seq<string>)
    requires Valid(t) && Fetches(fetch) && op.run != run
    ensures CkptAt(Apply(t, op), run, step, valid) == CkptAt(t, run, step, valid)
    ensures GraphAt(Apply(t, op), run, step, fetch) == GraphAt(t, run, step, fetch)
  {
    var u := Apply(t, op);
    ApplyKeepsValid(t, op);
    OtherRefsStay(t, op, run, step);
    OtherCkptsStay(t, op, run, step);
    if (run, step) in t.refs {
      LoadAtRef(t, run, step, fetch);
      LoadAtRef(u, run, step, fetch);
    }
  }

  lemma OtherRefsStay(t: Tables, op: Op, run: string, step: string)
    requires op.run != run
    ensures (run, step) in Apply(t, op).refs <==> (run, step) in t.refs
    ensures (run, step) in t.refs ==> Apply(t, op).refs[(run, step)] == t.refs[(run, step)]
  {
  }

  lemma OtherCkptsStay(t: Tables, op: Op, run: string, step: string)
    requires op.run != run
    ensures (run, step) in Apply(t, op).ckpts <==> (run, step) in t.ckpts
    ensures (run, step) in t.ckpts ==> Apply(t, op).ckpts[(run, step)] == t.ckpts[(run, step)]
  {
  }

  // A reset run has nothing left to load.
  lemma ResetForgets(t: Tables, run: string, step: string,
                     valid: (string, string) -> bool, fetch: Rows -> seq<string>)
    requires Valid(t) && Fetches(fetch)
    ensures CkptAt(Reset(t, run), run, step, valid) == None && GraphAt(Reset(t, run), run, step, fetch) == None
  {
    DroppingKeepsValid(t, run);
  }

  // The payload last saved for a step and not refused or dropped since.
  function LastSaved(ops: seq<Op>, run: string, step: string): Option<string> {
    if ops == [] then None
    else
      var init := ops[..|ops|-1];
      match ops[|ops|-1]
      case SaveCkpt(r, s, payload) =>
        if r == run && s == step && |payload| <= 104_857_600 then Some(payload) else LastSaved(init, run, step)
      case ResetRun(r) => if r == run then None else LastSaved(init, run, step)
      case DeleteRun(r) => if r == run then None else LastSaved(init, run, step)
      case _ => LastSaved(init, run, step)
  }

  lemma {:induction false} CkptIsLastSaved(ops: seq<Op>, run: string, step: string)
    ensures var t := ApplyAll(ops);
      && ((run, step) in t.ckpts <==> LastSaved(ops, run, step).Some?)
      && ((run, step) in t.ckpts ==> t.ckpts[(run, step)] == LastSaved(ops, run, step).value)
  {
    if ops != [] {
      var init, op := ops[..|ops|-1], ops[|ops|-1];
      CkptIsLastSaved(init, run, step);
      AlwaysValid(init);
      if op.run != run { OtherCkptsStay(ApplyAll(init), op, run, step); } else { OwnCkpts(ApplyAll(init), op, step); }
    }
  }

  lemma OwnCkpts(t: Tables, op: Op, step: string)
    requires Valid(t)
    ensures var k, u := (op.run, step), Apply(t, op);
      match op
      case SaveCkpt(_, s, payload) =>
        if s == step && |payload| <= CKPT_MAX then k in u.ckpts && u.ckpts[k] == payload
        else (k in u.ckpts <==> k in t.ckpts) && (k in t.ckpts ==> u.ckpts[k] == t.ckpts[k])
      case ResetRun(_) => k !in u.ckpts
      case DeleteRun(_) => k !in u.ckpts
      case _ => u.ckpts == t.ckpts
  {
    match op
    case SaveCkpt(_, _, _) =>
    case ResetRun(run) => DroppedCkpts(t, run);
    case DeleteRun(run) => DeletedCkpts(t, run, step);
    case SaveGraph(run, s, g) => GraphLeavesCkpts(t, run, s, g);
    case Register(_) =>
  }

  lemma DroppedCkpts(t: Tables, run: string)
    ensures forall k | k in Reset(t, run).ckpts :: k.0 != run
  {
  }

  lemma DeletedCkpts(t: Tables, run: string, step: string)
    requires Valid(t)
    ensures (run, step) !in Deleted(t, run).ckpts
  {
    if run in t.runs { DroppedCkpts(t, run); }
  }

  lemma GraphLeavesCkpts(t: Tables, run: string, step: string, g: Graph)
    ensures GraphSaved(t, run, step, g).ckpts == t.ckpts
  {
  }

  // Over any history, what is loaded is what was last saved under that run and step and not dropped
  // since, if it is still valid.
  lemma LoadsLastSaved(
      ops: seq<Op>, run: string, step: string, valid: (string, string) -> bool)
    ensures CkptAt(ApplyAll(ops), run, step, valid)
         == match LastSaved(ops, run, step)
            case None => None
            case Some(payload) => if valid(step, payload) then Some(payload) else None
  {
    CkptIsLastSaved(ops, run, step);
    SavedFits(ops, run, step);
  }

  lemma {:induction false} SavedFits(ops: seq<Op>, run: string, step: string)
    ensures LastSaved(ops, run, step).Some? ==> |LastSaved(ops, run, step).value| <= CKPT_MAX
  {
    if ops != [] { SavedFits(ops[..|ops|-1], run, step); }
  }

  // Registering a run makes it a run, and changes nothing that this or another run can load.
  lemma RegisteringChangesNoLoad(
      t: Tables, run: string, other: string, step: string, valid: (string, string) -> bool,
      fetch: Rows -> seq<string>)
    requires Valid(t) && Fetches(fetch)
    ensures var u := Registered(t, run);
      && Valid(u) && run in u.runs && (other in u.runs <==> other == run || other in t.runs)
      && CkptAt(u, other, step, valid) == CkptAt(t, other, step, valid)
      && GraphAt(u, other, step, fetch) == GraphAt(t, other, step, fetch)
  {
    ApplyKeepsValid(t, Register(run));
  }

  // ---- the store object ----

  class Store {
    var tables: Tables

    constructor ()
      ensures tables == EMPTY && Valid(tables)
    {
      tables := EMPTY;
    }

    method RegisterRun(run: string)
      modifies this
      ensures tables == Registered(old(tables), run)
    {
      tables := tables.(runs := tables.runs + {run});
    }

    method SaveCkpt(run: string, step: string, payload: string)
      modifies this
      ensures tables == CkptSaved(old(tables), run, step, payload)
    {
      if |payload| > CKPT_MAX { return; }
      tables := tables.(runs := tables.runs + {run});
      tables := tables.(ckpts := tables.ckpts[(run, step) := payload]);
    }

    method LoadCkpt(run: string, step: string, valid: (string, string) -> bool) returns (r: Option<string>)
      ensures r == CkptAt(tables, run, step, valid)
    {
      if (run, step) !in tables.ckpts { return None; }
      var payload := tables.ckpts[(run, step)];
      if |payload| > CKPT_MAX || !valid(step, payload) { return None; }
      return Some(payload);
    }

    method SaveCallgraph(run: string, step: string, g: Graph) returns (id: Option<GraphId>)
      modifies this
      ensures tables == GraphSaved(old(tables), run, step, g)
      ensures id == (match RowsOf(g) case None => None case Some(rows) => Some(Digest(rows)))
    {
      var rows := GraphRows(g);
      if rows == None { return None; }
      var gid := Digest(rows.value);
      tables := tables.(runs := tables.runs + {run});
      if (run, gid) !in tables.snaps {
        tables := tables.(snaps := tables.snaps[(run, gid) := CountsOf(gid.rows)]);
        tables := tables.(nodes := tables.nodes
          + map k | k in (set q | q in gid.rows.nodes :: (run, gid, q)) :: gid.rows.nodes[k.2]);
        tables := tables.(edges := tables.edges + set e | e in gid.rows.edges :: (run, gid, e.0, e.1));
      }
      tables := tables.(refs := tables.refs[(run, step) := gid]);
      return Some(gid);
    }

    method LoadCallgraph(run: string, step: string, fetch: Rows -> seq<string>) returns (r: Option<Loaded>)
      requires Fetches(fetch)
      ensures r == GraphAt(tables, run, step, fetch)
    {
      if (run, step) !in tables.refs { return None; }
      var rows := RowsAt(tables, run, tables.refs[(run, step)]);
      assert IsFetch(rows, fetch(rows));
      var l := LoadRows(rows, fetch(rows));
      return Some(l);
    }

    method ResetRun(run: string) returns (cleared: nat)
      modifies this
      ensures tables == Reset(old(tables), run)
      ensures cleared == |set k | k in old(tables).ckpts && k.0 == run| + |set k | k in old(tables).snaps && k.0 == run|
    {
      cleared := |set k | k in tables.ckpts && k.0 == run|;
      tables := CkptsDropped(tables, run);
      cleared := cleared + |set k | k in tables.snaps && k.0 == run|;
      tables := SnapshotsDropped(tables, run);
    }

    method DeleteRun(run: string) returns (deleted: bool)
      modifies this
      ensures tables == Deleted(old(tables), run)
      ensures deleted == (run in old(tables).runs)
    {
      deleted := run in tables.runs;
      if deleted {
        tables := Reset(tables, run);
        tables := tables.(runs := tables.runs - {run}, refs := RefsWithout(tables.refs, run));
      }
    }
  }
}
