// The scan pipeline with its checkpoints and call-graph snapshots, stopped anywhere and resumed.
// Stages are deterministic functions; each store write is one transaction, and a scan may be cut
// off before any of them.

module ScanResume {
  import opened Common
  import opened CallGraphRows
  import opened GraphNormalForm
  import opened GraphStore

  datatype Seed = Seed(g: Graph, rest: string)
  datatype Context = Context(g: Graph, rest: string, threat: Option<string>, app: string)

  datatype Verdicts = Verdicts(
    preDropped: string, verified: string, dropped: string, canonical: string, dupDropped: string)

  datatype Payload =
    | PSeed(seed: Seed)
    | PContext(ctx: Context)
    | PThreat(threat: string)
    | PManifest(manifest: string)
    | PFindings(findings: string, outcomes: string)
    | PVerdicts(verdicts: Verdicts)
    | PReport(report: string)

  datatype ChainInput = ChainInput(
    canonical: string, ctx: Context, verdicts: Verdicts, findings: (string, string), manifest: string)

  // The steps that use the store.
  datatype Step = S0 | S1 | S2 | S3 | S4 | S7 | S8

  function Name(step: Step): string {
    match step
    case S0 => "s0" case S1 => "s1" case S2 => "s2" case S3 => "s3" case S4 => "s4" case S7 => "s7" case S8 => "s8"
  }

  lemma NamesDiffer(a: Step, b: Step)
    requires Name(a) == Name(b)
    ensures a == b
  {
    assert Name(a)[1] == Name(b)[1];
  }

  datatype Plan = Plan(
    run: string,
    app: string,
    seed: Seed,                                        // s0
    preprocess: Seed -> Context,                       // s1
    threatModel: Context -> Option<string>,            // s2; nothing when disabled or failing
    decompose: Context -> string,                      // s3
    deepDive: (string, Context) -> (string, string),   // s4: findings, outcomes
    prefilter: (string, Context) -> (string, string),  // s5: kept, dropped
    verify_: (string, Context) -> (string, string),    // s6: verified, dropped
    dedup: (string, Context) -> (string, string),      // s7: canonical, duplicates
    enrich: string -> string,
    chain: ChainInput -> string,                       // s8
    dump: Payload -> string,
    read: (string, string) -> Option<Payload>,         // validate-on-load
    fetch: Rows -> seq<string>)

  // The shape each step's checkpoint has.
  predicate OfStep(step: Step, x: Payload) {
    match step
    case S0 => x.PSeed?
    case S1 => x.PContext?
    case S2 => x.PThreat?
    case S3 => x.PManifest?
    case S4 => x.PFindings?
    case S7 => x.PVerdicts?
    case S8 => x.PReport?
  }

  // Reading a step's payload back as that step gives it again, or is refused.
  ghost predicate Sane(p: Plan) {
    && Fetches(p.fetch)
    && forall step: Step, x | OfStep(step, x) :: p.read(Name(step), p.dump(x)) in {None, Some(x)}
  }

  // ---- what an undisturbed scan computes ----

  datatype Course = Course(
    seed: Seed, seedRows: Option<Rows>,
    first: Context, firstRows: Option<Rows>, mapped: Context,
    modelled: Context, modelledRows: Option<Rows>, full: Context, fullRows: Option<Rows>, latest: Context,
    manifest: string, findings: (string, string), verdicts: Verdicts, report: string)

  // The first of the stored graphs, put back into the context.
  ghost function HydrateFrom(p: Plan, ctx: Context, stored: seq<Option<Rows>>): Context
    requires Fetches(p.fetch)
  {
    if stored == [] then ctx
    else match stored[0]
      case None => HydrateFrom(p, ctx, stored[1..])
      case Some(rows) =>
        assert IsFetch(rows, p.fetch(rows));
        ctx.(g := Hydrate(ctx.g, LoadedFrom(rows, p.fetch(rows))))
  }

  ghost function JudgedBy(p: Plan, findings: string, full: Context, latest: Context): Verdicts {
    var (kept, preDropped) := p.prefilter(findings, full);
    var (verified, dropped) := p.verify_(kept, latest);
    var (canonical, dupDropped) := p.dedup(verified, latest);
    Verdicts(preDropped, verified, dropped, canonical, dupDropped)
  }

  ghost function Undisturbed(p: Plan): Course
    requires Fetches(p.fetch)
  {
    var rows0 := RowsOf(p.seed.g);
    var first := p.preprocess(p.seed);
    var rows1 := RowsOf(first.g);
    var mapped := HydrateFrom(p, first, [rows1, rows0]).(app := p.app);
    var modelled := mapped.(threat := p.threatModel(mapped));
    var rows2 := RowsOf(modelled.g);
    var full := HydrateFrom(p, modelled, [rows2, rows1, rows0]);
    var rows3 := RowsOf(full.g);
    var latest := HydrateFrom(p, full, [rows3, rows3, rows2, rows1, rows0]);
    var manifest := p.decompose(full);
    var findings := p.deepDive(manifest, full);
    var verdicts := JudgedBy(p, findings.0, full, latest);
    var report := p.chain(ChainInput(p.enrich(verdicts.canonical), latest, verdicts, findings, manifest));
    Course(p.seed, rows0, first, rows1, mapped, modelled, rows2, full, rows3, latest,
           manifest, findings, verdicts, report)
  }

  // The graph rows each step stores, if it stores any; steps 3 and 4 store the graph step 2 left.
  function RowsAtStep(c: Course, step: Step): Option<Rows> {
    match step
    case S0 => c.seedRows
    case S1 => c.firstRows
    case S2 => c.modelledRows
    case _ => c.fullRows
  }

  // The checkpoint each step leaves, if it leaves one.
  function PayloadAt(c: Course, step: Step): Option<Payload> {
    match step
    case S0 => Some(PSeed(c.seed))
    case S1 => Some(PContext(c.first))
    case S2 => (match c.modelled.threat case None => None case Some(t) => Some(PThreat(t)))
    case S3 => Some(PManifest(c.manifest))
    case S4 => Some(PFindings(c.findings.0, c.findings.1))
    case S7 => Some(PVerdicts(c.verdicts))
    case S8 => Some(PReport(c.report))
  }

  // ---- what the store may hold between scans ----

  // Whatever this run can load is what an undisturbed scan would have written.
  ghost predicate CkptsAgree(p: Plan, c: Course, t: Tables) {
    forall step: Step | (p.run, Name(step)) in t.ckpts ::
      p.read(Name(step), t.ckpts[(p.run, Name(step))]) in {None, PayloadAt(c, step)}
  }

  ghost predicate GraphsAgree(p: Plan, c: Course, t: Tables) {
    forall step: Step | !step.S7? && !step.S8? && (p.run, Name(step)) in t.refs ::
      RowsAtStep(c, step) == Some(t.refs[(p.run, Name(step))].rows)
  }

  ghost predicate Agrees(p: Plan, c: Course, t: Tables) {
    Valid(t) && CkptsAgree(p, c, t) && GraphsAgree(p, c, t)
  }

  // The step's graph, if it has one, is stored.
  ghost predicate Bound(p: Plan, c: Course, t: Tables, step: Step) {
    RowsAtStep(c, step).Some? ==> (p.run, Name(step)) in t.refs
  }

  ghost predicate IsStepName(s: string) { exists step: Step :: s == Name(step) }

  // A resumed scan can load the step's checkpoint.
  predicate Loads(p: Plan, t: Tables, step: Step) {
    var k := (p.run, Name(step));
    k in t.ckpts && |t.ckpts[k]| <= CKPT_MAX && p.read(Name(step), t.ckpts[k]).Some?
  }

  // The step leaves nothing that could be loaded: no checkpoint, an oversized one, or one its
  // schema refuses.
  predicate Refused(p: Plan, c: Course, step: Step) {
    match PayloadAt(c, step)
    case None => true
    case Some(x) => |p.dump(x)| > CKPT_MAX || p.read(Name(step), p.dump(x)).None?
  }

  // Nothing is left to do for the step's checkpoint.
  predicate Done(p: Plan, c: Course, t: Tables, step: Step) { Loads(p, t, step) || Refused(p, c, step) }

  // From t to u: still in agreement, no stored graph lost, no checkpoint added but a scan's own.
  ghost predicate Kept(p: Plan, c: Course, t: Tables, u: Tables) {
    && Agrees(p, c, u)
    && (forall s | (p.run, s) in t.refs :: (p.run, s) in u.refs)
    && (forall s | (p.run, s) in u.ckpts :: (p.run, s) in t.ckpts || IsStepName(s))
  }

  lemma CkptKeepsAgreement(
      p: Plan, c: Course, t: Tables, u: Tables, step: Step, x: Payload)
    requires Sane(p) && Agrees(p, c, t) && PayloadAt(c, step) == Some(x)
    requires u == CkptSaved(t, p.run, Name(step), p.dump(x))
    ensures Kept(p, c, t, u) && Done(p, c, u, step)
    ensures forall s: Step | Done(p, c, t, s) :: Done(p, c, u, s)
  {
    CkptStored(t, u, p.run, Name(step), p.dump(x));
    CkptAdded(p, c, t, u, step, x);
    forall s: Step | s == step || Done(p, c, t, s)
      ensures Done(p, c, u, s)
    {
      CkptUndoesNone(p, c, t, u, step, x, s);
    }
  }

  // Writing one step's checkpoint leaves nothing to do for it, and undoes no other.
  lemma CkptUndoesNone(p: Plan, c: Course, t: Tables, u: Tables, step: Step, x: Payload, s: Step)
    requires PayloadAt(c, step) == Some(x) && (s == step || Done(p, c, t, s))
    requires u == CkptSaved(t, p.run, Name(step), p.dump(x))
    ensures Done(p, c, u, s)
  {
    if s != step && Name(s) == Name(step) { NamesDiffer(s, step); }
  }

  lemma OwnShape(c: Course, step: Step)
    ensures PayloadAt(c, step).Some? ==> OfStep(step, PayloadAt(c, step).value)
  {
  }

  lemma CkptStored(t: Tables, u: Tables, run: string, step: string, payload: string)
    requires Valid(t) && u == CkptSaved(t, run, step, payload)
    ensures Valid(u) && u.refs == t.refs && u.ckpts in {t.ckpts, t.ckpts[(run, step) := payload]}
  {
    ApplyKeepsValid(t, SaveCkpt(run, step, payload));
  }

  lemma CkptAdded(p: Plan, c: Course, t: Tables, u: Tables, step: Step, x: Payload)
    requires Sane(p) && CkptsAgree(p, c, t) && PayloadAt(c, step) == Some(x)
    requires u.ckpts in {t.ckpts, t.ckpts[(p.run, Name(step)) := p.dump(x)]}
    ensures CkptsAgree(p, c, u)
  {
    OwnShape(c, step);
    forall s: Step | (p.run, Name(s)) in u.ckpts
      ensures p.read(Name(s), u.ckpts[(p.run, Name(s))]) in {None, PayloadAt(c, s)}
    {
      if Name(s) == Name(step) { NamesDiffer(s, step); }
      assert p.read(Name(step), p.dump(x)) in {None, Some(x)};
    }
  }

  lemma GraphKeepsAgreement(
      p: Plan, c: Course, t: Tables, u: Tables, step: Step, g: Graph, rows: Option<Rows>)
    requires Agrees(p, c, t) && RowsOf(g) == rows
    requires step.S7? || step.S8? || rows == RowsAtStep(c, step)
    requires u == GraphSaved(t, p.run, Name(step), g)
    ensures Kept(p, c, t, u) && u.ckpts == t.ckpts
    ensures !step.S7? && !step.S8? ==> Bound(p, c, u, step)
  {
    GraphStored(t, u, p.run, Name(step), g, rows);
    if rows.Some? { RefAdded(p, c, t, u, step, rows.value); }
  }

  lemma GraphStored(t: Tables, u: Tables, run: string, step: string, g: Graph, rows: Option<Rows>)
    requires Valid(t) && RowsOf(g) == rows && u == GraphSaved(t, run, step, g)
    ensures Valid(u) && u.ckpts == t.ckpts
    ensures u.refs == (match rows case None => t.refs case Some(r) => t.refs[(run, step) := Digest(r)])
  {
    if rows.Some? {
      SavedIsWellStored(g, rows.value);
      SavingKeepsValid(t, u, run, step, rows.value);
    }
  }

  lemma RefAdded(p: Plan, c: Course, t: Tables, u: Tables, step: Step, rows: Rows)
    requires GraphsAgree(p, c, t) && CkptsAgree(p, c, t)
    requires step.S7? || step.S8? || Some(rows) == RowsAtStep(c, step)
    requires u.ckpts == t.ckpts && u.refs == t.refs[(p.run, Name(step)) := Digest(rows)]
    ensures GraphsAgree(p, c, u) && CkptsAgree(p, c, u)
  {
    forall s: Step | !s.S7? && !s.S8? && (p.run, Name(s)) in u.refs
      ensures RowsAtStep(c, s) == Some(u.refs[(p.run, Name(s))].rows)
    {
      if Name(s) == Name(step) { NamesDiffer(s, step); }
    }
  }

  // No step is undone, and of those done before none is computed but such as leave nothing to load.
  ghost predicate Tracked(p: Plan, c: Course, t: Tables, begun: set<Step>, done: set<Step>, computed: set<Step>) {
    && begun <= done
    && (forall step | step in done :: Done(p, c, t, step))
    && (forall step | step in begun && step in computed :: Refused(p, c, step))
  }

  lemma SameCkpts(
      p: Plan, c: Course, t: Tables, u: Tables, begun: set<Step>, done: set<Step>, computed: set<Step>)
    requires u.ckpts == t.ckpts && Tracked(p, c, t, begun, done, computed)
    ensures Tracked(p, c, u, begun, done, computed)
  {
    forall step | step in done ensures Done(p, c, u, step) { assert Done(p, c, t, step); }
  }

  lemma RegisteredAgrees(p: Plan, c: Course, t: Tables)
    requires Valid(t)
    ensures Valid(Registered(t, p.run)) && (Agrees(p, c, t) ==> Agrees(p, c, Registered(t, p.run)))
  {
    ApplyKeepsValid(t, Register(p.run));
  }

  lemma ResetAgrees(p: Plan, c: Course, t: Tables)
    requires Valid(t)
    ensures Agrees(p, c, Reset(t, p.run))
    ensures forall s :: (p.run, s) !in Reset(t, p.run).ckpts
  {
    DroppingKeepsValid(t, p.run);
  }

  // A stored graph is found exactly when the step has one.
  lemma LoadAgrees(p: Plan, c: Course, t: Tables, step: Step)
    requires Sane(p) && Agrees(p, c, t) && !step.S7? && !step.S8? && Bound(p, c, t, step)
    ensures GraphAt(t, p.run, Name(step), p.fetch)
         == (match RowsAtStep(c, step) case None => None case Some(rows) => Some(LoadedFrom(rows, p.fetch(rows))))
  {
    if (p.run, Name(step)) in t.refs { LoadAtRef(t, p.run, Name(step), p.fetch); }
  }

  // Putting the same stored graph back a second time changes nothing.
  lemma {:induction false} HydratingTwice(
      p: Plan, ctx: Context, stored: seq<Option<Rows>>)
    requires Fetches(p.fetch)
    ensures HydrateFrom(p, HydrateFrom(p, ctx, stored), stored) == HydrateFrom(p, ctx, stored)
  {
    if stored != [] && stored[0] == None { HydratingTwice(p, ctx, stored[1..]); }
  }

  // ---- the scan ----

  const TWO := [S1, S0]
  const THREE := [S2, S1, S0]
  const FIVE := [S4, S3, S2, S1, S0]

  ghost predicate Lists(c: Course, steps: seq<Step>, rows: seq<Option<Rows>>) {
    |rows| == |steps| && forall i | 0 <= i < |steps| :: rows[i] == RowsAtStep(c, steps[i])
  }

  lemma Listings(c: Course)
    ensures Lists(c, TWO, [c.firstRows, c.seedRows])
    ensures Lists(c, THREE, [c.modelledRows, c.firstRows, c.seedRows])
    ensures Lists(c, FIVE, [c.fullRows, c.fullRows, c.modelledRows, c.firstRows, c.seedRows])
  {
  }

  class Scan {
    const p: Plan
    const store: Store
    ghost const c: Course
    var budget: nat                   // store writes left before the scan is cut off
    ghost var begun: set<Step>        // the steps done when the scan began
    ghost var done: set<Step>         // the steps done by now
    ghost var computed: set<Step>     // the steps computed, not loaded

    constructor (p: Plan, store: Store, budget: nat)
      requires Sane(p)
      ensures Fit() && this.p == p && this.store == store && this.budget == budget
    {
      this.p, this.store, this.budget := p, store, budget;
      c := Undisturbed(p);
      begun, done, computed := {}, {}, {};
    }

    ghost predicate Fit() { Sane(p) && c == Undisturbed(p) }

    ghost predicate Ready()
      reads this, store
    {
      Sane(p) && Agrees(p, c, store.tables) && Tracks()
    }

    ghost predicate Tracks()
      reads this, store
    {
      Tracked(p, c, store.tables, begun, done, computed)
    }

    ghost predicate Has(step: Step)
      reads store
    {
      Bound(p, c, store.tables, step)
    }

    ghost predicate AllDone()
      reads this
    {
      S0 in done && S1 in done && S2 in done && S3 in done && S4 in done && S7 in done && S8 in done
    }

    ghost predicate HasAll()
      reads store
    {
      Has(S0) && Has(S1) && Has(S2) && Has(S3) && Has(S4)
    }

    method PutCkpt(step: Step, x: Payload) returns (alive: bool)
      requires Ready() && PayloadAt(c, step) == Some(x)
      modifies this`budget, this`done, store
      ensures Kept(p, c, old(store.tables), store.tables) && Ready() && old(done) <= done
      ensures alive <==> old(budget) > 0
      ensures alive ==> budget == old(budget) - 1 && step in done
    {
      if budget == 0 { return false; }
      budget := budget - 1;
      ghost var before := store.tables;
      store.SaveCkpt(p.run, Name(step), p.dump(x));
      CkptKeepsAgreement(p, c, before, store.tables, step, x);
      done := done + {step};
      return true;
    }

    method PutGraph(step: Step, g: Graph) returns (alive: bool)
      requires Ready()
      requires step.S7? || step.S8? || RowsOf(g) == RowsAtStep(c, step)
      modifies this`budget, this`done, store
      ensures Kept(p, c, old(store.tables), store.tables) && Ready() && old(done) <= done
      ensures alive && !step.S7? && !step.S8? ==> Has(step)
      ensures alive <==> old(budget) > 0
      ensures alive ==> budget == old(budget) - 1
    {
      if budget == 0 { return false; }
      budget := budget - 1;
      ghost var before := store.tables;
      var _ := store.SaveCallgraph(p.run, Name(step), g);
      GraphKeepsAgreement(p, c, before, store.tables, step, g, RowsOf(g));
      SameCkpts(p, c, before, store.tables, begun, done, computed);
      return true;
    }

    method GetCkpt(step: Step, resume: bool) returns (r: Option<Payload>)
      requires Ready() && (resume || begun == {})
      ensures r.Some? ==> r == PayloadAt(c, step) && Done(p, c, store.tables, step)
      ensures r.None? && step in begun ==> Refused(p, c, step)
    {
      if !resume { return None; }
      var blob := store.LoadCkpt(p.run, Name(step), (s, x) => p.read(s, x).Some?);
      return if blob == None then None else p.read(Name(step), blob.value);
    }

    ghost predicate HasEach(steps: seq<Step>)
      reads store
    {
      forall i | 0 <= i < |steps| :: !steps[i].S7? && !steps[i].S8? && Has(steps[i])
    }

    // Search the steps in order; the first stored graph is put back into the context.
    method HydrateContext(ctx: Context, steps: seq<Step>, ghost rows: seq<Option<Rows>>) returns (r: Context)
      requires Ready() && HasEach(steps) && Lists(c, steps, rows)
      ensures r == HydrateFrom(p, ctx, rows)
    {
      for i := 0 to |steps|
        invariant HydrateFrom(p, ctx, rows) == HydrateFrom(p, ctx, rows[i..])
      {
        var graph := store.LoadCallgraph(p.run, Name(steps[i]), p.fetch);
        LoadAgrees(p, c, store.tables, steps[i]);
        assert rows[i..][0] == rows[i] && rows[i..][1..] == rows[i+1..];
        if graph == None { continue; }
        return ctx.(g := Hydrate(ctx.g, graph.value));
      }
      return ctx;
    }

    lemma HasTwo()
      requires Has(S0) && Has(S1)
      ensures HasEach(TWO)
    {
    }

    lemma HasThree()
      requires Has(S0) && Has(S1) && Has(S2)
      ensures HasEach(THREE)
    {
    }

    lemma HasFive()
      requires HasAll()
      ensures HasEach(FIVE)
    {
    }

    method HydrateFirst(ctx: Context) returns (r: Context)
      requires Ready() && Has(S0) && Has(S1)
      ensures r == HydrateFrom(p, ctx, [c.firstRows, c.seedRows])
    {
      Listings(c);
      HasTwo();
      r := HydrateContext(ctx, TWO, [c.firstRows, c.seedRows]);
    }

    method HydrateModelled(ctx: Context) returns (r: Context)
      requires Ready() && Has(S0) && Has(S1) && Has(S2)
      ensures r == HydrateFrom(p, ctx, [c.modelledRows, c.firstRows, c.seedRows])
    {
      Listings(c);
      HasThree();
      r := HydrateContext(ctx, THREE, [c.modelledRows, c.firstRows, c.seedRows]);
    }

    // A step's result is what its checkpoint holds, or else is computed now and checkpointed; then
    // the graph is stored.
    method Settle(step: Step, ckpt: Option<Payload>, x: Payload, g: Graph) returns (alive: bool)
      requires Ready() && PayloadAt(c, step) == Some(x)
      requires if ckpt.Some? then Done(p, c, store.tables, step) else step in begun ==> Refused(p, c, step)
      requires step.S7? || step.S8? || RowsOf(g) == RowsAtStep(c, step)
      modifies this`budget, this`done, this`computed, store
      ensures Kept(p, c, old(store.tables), store.tables) && Ready() && old(done) <= done
      ensures alive ==> step in done
      ensures alive && !step.S7? && !step.S8? ==> Has(step)
      ensures old(budget) >= 2 ==> alive && budget >= old(budget) - 2
    {
      if ckpt.Some? {
        done := done + {step};
      } else {
        computed := computed + {step};
        var wrote := PutCkpt(step, x);
        if !wrote { return false; }
      }
      alive := PutGraph(step, g);
    }

    method Seeding(resume: bool) returns (seed: Option<Seed>)
      requires Ready() && (resume || begun == {}) && p.seed == c.seed && RowsOf(c.seed.g) == c.seedRows
      modifies this`budget, this`done, this`computed, store
      ensures Kept(p, c, old(store.tables), store.tables) && Ready() && old(done) <= done
      ensures seed.Some? ==> seed.value == c.seed && Has(S0) && S0 in done
      ensures old(budget) >= 2 ==> seed.Some? && budget >= old(budget) - 2
    {
      var ckpt := GetCkpt(S0, resume);
      var s := if ckpt.Some? then ckpt.value.seed else p.seed;
      var alive := Settle(S0, ckpt, PSeed(s), s.g);
      return if alive then Some(s) else None;
    }

    method Preprocessing(seed: Seed, resume: bool) returns (ctx: Option<Context>)
      requires Ready() && (resume || begun == {}) && Has(S0)
      requires p.preprocess(seed) == c.first && RowsOf(c.first.g) == c.firstRows
      requires c.mapped == HydrateFrom(p, c.first, [c.firstRows, c.seedRows]).(app := p.app)
      modifies this`budget, this`done, this`computed, store
      ensures Kept(p, c, old(store.tables), store.tables) && Ready() && old(done) <= done
      ensures ctx.Some? ==> ctx.value == c.mapped && Has(S1) && S1 in done
      ensures old(budget) >= 2 ==> ctx.Some? && budget >= old(budget) - 2
    {
      var ckpt := GetCkpt(S1, resume);
      var x := if ckpt.Some? then ckpt.value.ctx else p.preprocess(seed);
      var alive := Settle(S1, ckpt, PContext(x), x.g);
      if !alive { return None; }
      x := HydrateFirst(x);
      return Some(x.(app := p.app));
    }

    // A step 2 without a threat model leaves no checkpoint.
    method SettleThreat(ckpt: Option<Payload>, threat: Option<string>, g: Graph) returns (alive: bool)
      requires Ready() && threat == c.modelled.threat && RowsOf(g) == c.modelledRows
      requires if ckpt.Some? then Done(p, c, store.tables, S2) else S2 in begun ==> Refused(p, c, S2)
      modifies this`budget, this`done, this`computed, store
      ensures Kept(p, c, old(store.tables), store.tables) && Ready() && old(done) <= done
      ensures alive ==> S2 in done && Has(S2)
      ensures old(budget) >= 2 ==> alive && budget >= old(budget) - 2
    {
      if threat.Some? {
        alive := Settle(S2, ckpt, PThreat(threat.value), g);
      } else {
        computed, done := computed + {S2}, done + {S2};
        alive := PutGraph(S2, g);
      }
    }

    method Modelling(ctx: Context, resume: bool) returns (r: Option<Context>)
      requires Ready() && (resume || begun == {})
      requires c.modelled == ctx.(threat := p.threatModel(ctx)) && RowsOf(c.modelled.g) == c.modelledRows
      modifies this`budget, this`done, this`computed, store
      ensures Kept(p, c, old(store.tables), store.tables) && Ready() && old(done) <= done
      ensures r.Some? ==> r.value == c.modelled && Has(S2) && S2 in done
      ensures old(budget) >= 2 ==> r.Some? && budget >= old(budget) - 2
    {
      var ckpt := GetCkpt(S2, resume);
      var threat := if ckpt.Some? then Some(ckpt.value.threat) else p.threatModel(ctx);
      var x := ctx.(threat := threat);
      var alive := SettleThreat(ckpt, threat, x.g);
      return if alive then Some(x) else None;
    }

    method ThreatModelling(ctx: Context, resume: bool) returns (r: Option<Context>)
      requires Ready() && (resume || begun == {}) && Has(S0) && Has(S1)
      requires c.modelled == ctx.(threat := p.threatModel(ctx)) && RowsOf(c.modelled.g) == c.modelledRows
      requires c.full == HydrateFrom(p, c.modelled, [c.modelledRows, c.firstRows, c.seedRows])
      modifies this`budget, this`done, this`computed, store
      ensures Kept(p, c, old(store.tables), store.tables) && Ready() && old(done) <= done
      ensures r.Some? ==> r.value == c.full && Has(S2) && S2 in done
      ensures old(budget) >= 2 ==> r.Some? && budget >= old(budget) - 2
    {
      r := Modelling(ctx, resume);
      if r.None? { return None; }
      var x := HydrateModelled(r.value);
      return Some(x);
    }

    method Decomposing(ctx: Context, resume: bool) returns (manifest: Option<string>)
      requires Ready() && (resume || begun == {}) && p.decompose(ctx) == c.manifest && RowsOf(ctx.g) == c.fullRows
      modifies this`budget, this`done, this`computed, store
      ensures Kept(p, c, old(store.tables), store.tables) && Ready() && old(done) <= done
      ensures manifest.Some? ==> manifest.value == c.manifest && Has(S3) && S3 in done
      ensures old(budget) >= 2 ==> manifest.Some? && budget >= old(budget) - 2
    {
      var ckpt := GetCkpt(S3, resume);
      var m := if ckpt.Some? then ckpt.value.manifest else p.decompose(ctx);
      var alive := Settle(S3, ckpt, PManifest(m), ctx.g);
      return if alive then Some(m) else None;
    }

    method DeepDiving(manifest: string, ctx: Context, resume: bool) returns (r: Option<(string, string)>)
      requires Ready() && (resume || begun == {})
      requires p.deepDive(manifest, ctx) == c.findings && RowsOf(ctx.g) == c.fullRows
      modifies this`budget, this`done, this`computed, store
      ensures Kept(p, c, old(store.tables), store.tables) && Ready() && old(done) <= done
      ensures r.Some? ==> r.value == c.findings && Has(S4) && S4 in done
      ensures old(budget) >= 2 ==> r.Some? && budget >= old(budget) - 2
    {
      var ckpt := GetCkpt(S4, resume);
      var f := if ckpt.Some? then (ckpt.value.findings, ckpt.value.outcomes) else p.deepDive(manifest, ctx);
      var alive := Settle(S4, ckpt, PFindings(f.0, f.1), ctx.g);
      return if alive then Some(f) else None;
    }

    ghost predicate Latest(ctx: Context) {
      && Sane(p)
      && c.latest == HydrateFrom(p, c.full, [c.fullRows, c.fullRows, c.modelledRows, c.firstRows, c.seedRows])
      && (ctx == c.full || ctx == c.latest)
    }

    // The latest stored graph, put back into a context that may already hold it.
    method Rehydrate(ctx: Context) returns (r: Context)
      requires Ready() && HasAll() && Latest(ctx)
      ensures r == c.latest
    {
      ghost var rows := [c.fullRows, c.fullRows, c.modelledRows, c.firstRows, c.seedRows];
      Listings(c);
      HasFive();
      r := HydrateContext(ctx, FIVE, rows);
      HydratingTwice(p, c.full, rows);
    }

    // Steps 5, 6 and 7 share one checkpoint.
    method Verifying(findings: string, ctx: Context, resume: bool) returns (r: Option<(Verdicts, Context)>)
      requires Ready() && (resume || begun == {}) && HasAll() && Latest(c.full) && ctx == c.full
      requires c.verdicts == JudgedBy(p, findings, c.full, c.latest)
      modifies this`budget, this`done, this`computed, store
      ensures Kept(p, c, old(store.tables), store.tables) && Ready() && old(done) <= done
      ensures r.Some? ==> r.value.0 == c.verdicts && (r.value.1 == c.full || r.value.1 == c.latest)
      ensures r.Some? ==> S7 in done
      ensures old(budget) >= 1 ==> r.Some? && budget >= old(budget) - 1
    {
      var ckpt := GetCkpt(S7, resume);
      if ckpt.Some? {
        done := done + {S7};
        return Some((ckpt.value.verdicts, ctx));
      }
      computed := computed + {S7};
      var (kept, preDropped) := p.prefilter(findings, ctx);
      var x := Rehydrate(ctx);
      var (verified, dropped) := p.verify_(kept, x);
      x := Rehydrate(x);
      var (canonical, dupDropped) := p.dedup(verified, x);
      var d := Verdicts(preDropped, verified, dropped, canonical, dupDropped);
      var alive := PutCkpt(S7, PVerdicts(d));
      return if alive then Some((d, x)) else None;
    }

    method Chaining(input: ChainInput, resume: bool) returns (report: Option<string>)
      requires Ready() && (resume || begun == {}) && p.chain(input) == c.report
      modifies this`budget, this`done, this`computed, store
      ensures Kept(p, c, old(store.tables), store.tables) && Ready() && old(done) <= done
      ensures report.Some? ==> report.value == c.report && S8 in done
      ensures old(budget) >= 2 ==> report.Some?
    {
      var ckpt := GetCkpt(S8, resume);
      var x := if ckpt.Some? then ckpt.value.report else p.chain(input);
      var alive := Settle(S8, ckpt, PReport(x), input.ctx.g);
      return if alive then Some(x) else None;
    }

    // Steps 5 to 8.
    method Finishing(findings: (string, string), manifest: string, ctx: Context, resume: bool)
      returns (report: Option<string>)
      requires Ready() && (resume || begun == {}) && HasAll() && Latest(c.full) && ctx == c.full
      requires c.verdicts == JudgedBy(p, findings.0, c.full, c.latest)
      requires p.chain(ChainInput(p.enrich(c.verdicts.canonical), c.latest, c.verdicts, findings, manifest)) == c.report
      modifies this`budget, this`done, this`computed, store
      ensures Kept(p, c, old(store.tables), store.tables) && Ready() && old(done) <= done
      ensures report.Some? ==> report.value == c.report && S7 in done && S8 in done
      ensures old(budget) >= 4 ==> report.Some?
    {
      var r := Verifying(findings.0, ctx, resume);
      if r.None? { return None; }
      var (d, x) := r.value;
      var canonical := p.enrich(d.canonical);
      var alive := PutGraph(S7, x.g);
      if !alive { return None; }
      x := Rehydrate(x);
      report := Chaining(ChainInput(canonical, x, d, findings, manifest), resume);
    }

    // Steps 0 to 2.
    method Mapping(resume: bool) returns (ctx: Option<Context>)
      requires Fit() && Ready() && (resume || begun == {})
      modifies this`budget, this`done, this`computed, store
      ensures Kept(p, c, old(store.tables), store.tables) && Ready() && old(done) <= done
      ensures ctx.Some? ==> ctx.value == c.full && Has(S0) && Has(S1) && Has(S2)
      ensures ctx.Some? ==> S0 in done && S1 in done && S2 in done
      ensures old(budget) >= 6 ==> ctx.Some? && budget >= old(budget) - 6
    {
      var seed := Seeding(resume);
      if seed.None? { return None; }
      ctx := Preprocessing(seed.value, resume);
      if ctx.None? { return None; }
      ctx := ThreatModelling(ctx.value, resume);
    }

    // All the steps, once the store is in order.
    method Steps(resume: bool) returns (report: Option<string>)
      requires Fit() && Ready() && (resume || begun == {})
      modifies this`budget, this`done, this`computed, store
      ensures Kept(p, c, old(store.tables), store.tables) && Ready() && old(done) <= done
      ensures report.Some? ==> report.value == c.report && AllDone()
      ensures old(budget) >= 14 ==> report.Some?
    {
      var ctx := Mapping(resume);
      if ctx.None? { return None; }
      var manifest := Decomposing(ctx.value, resume);
      if manifest.None? { return None; }
      var findings := DeepDiving(manifest.value, ctx.value, resume);
      if findings.None? { return None; }
      report := Finishing(findings.value, manifest.value, ctx.value, resume);
    }

    // The run is registered and, unless the scan is resumed, reset.
    method Opening(resume: bool) returns (alive: bool)
      requires Fit() && Valid(store.tables) && (resume ==> Agrees(p, c, store.tables))
      modifies this, store
      ensures alive ==> Ready()
      ensures resume || old(Agrees(p, c, store.tables)) ==> Agrees(p, c, store.tables)
      ensures alive && !resume ==> forall s :: (p.run, s) !in store.tables.ckpts
      ensures !resume && !alive ==> store.tables in {old(store.tables), Registered(old(store.tables), p.run)}
      ensures resume || begun == {}
      ensures resume ==> forall step: Step | old(Done(p, c, store.tables, step)) :: step in begun
      ensures computed == {}
      ensures var writes := if resume then 1 else 2;
        (alive <==> old(budget) >= writes) && (alive ==> budget == old(budget) - writes)
    {
      begun := if resume then set step: Step | Done(p, c, store.tables, step) else {};
      done, computed := begun, {};
      if budget == 0 { return false; }
      budget := budget - 1;
      ghost var first := store.tables;
      store.RegisterRun(p.run);
      SameCkpts(p, c, first, store.tables, begun, done, computed);
      RegisteredAgrees(p, c, first);
      if !resume {
        if budget == 0 { return false; }
        budget := budget - 1;
        var _ := store.ResetRun(p.run);
        ResetAgrees(p, c, Registered(first, p.run));
      }
      return true;
    }

    lemma AllAreDone()
      requires Tracks() && AllDone()
      ensures forall step: Step :: Done(p, c, store.tables, step)
    {
      forall step: Step ensures step in done {
        match step case S0 => case S1 => case S2 => case S3 => case S4 => case S7 => case S8 =>
      }
    }

    // One scan, cut off when its budget is spent.  A fresh scan forgets whatever the run held, unless
    // it is cut off before the reset: then the run still holds all of it.  A scan that ends leaves
    // every checkpoint that can be left, and a scan resumed on such a store computes no other step.
    method ScanRepo(resume: bool) returns (report: Option<string>)
      requires Fit() && Valid(store.tables) && (resume ==> Agrees(p, c, store.tables))
      modifies this, store
      ensures resume || old(Agrees(p, c, store.tables)) ==> Agrees(p, c, store.tables)
      ensures !resume && old(budget) >= 2 ==>
        Agrees(p, c, store.tables) && forall s | (p.run, s) in store.tables.ckpts :: IsStepName(s)
      ensures !resume && old(budget) < 2 ==> store.tables in {old(store.tables), Registered(old(store.tables), p.run)}
      ensures report.Some? ==> report.value == Undisturbed(p).report
      ensures old(budget) >= 16 ==> report.Some?
      ensures report.Some? ==> forall step: Step :: Done(p, c, store.tables, step)
      ensures resume ==> forall step | step in computed && old(Done(p, c, store.tables, step)) :: Refused(p, c, step)
    {
      var alive := Opening(resume);
      if !alive { return None; }
      report := Steps(resume);
      if report.Some? { AllAreDone(); }
    }
  }

  // A run of which nothing is stored agrees with any scan of it.
  lemma NothingStoredAgrees(p: Plan, c: Course, t: Tables)
    requires Valid(t) && forall s :: (p.run, s) !in t.ckpts && (p.run, s) !in t.refs
    ensures Agrees(p, c, t)
  {
  }

  // A fresh scan, cut off anywhere, resumed and cut off any number of times, and at last left to
  // finish, gives the report of an undisturbed scan and leaves all its checkpoints.  If it is cut off
  // before its reset the store must not hold what another scan left.
  method ScanUntilDone(p: Plan, store: Store, first: nat, cuts: seq<nat>) returns (report: string)
    requires Sane(p) && Valid(store.tables)
    requires first >= 2 || Agrees(p, Undisturbed(p), store.tables)
    modifies store
    ensures report == Undisturbed(p).report
    ensures forall step: Step :: Done(p, Undisturbed(p), store.tables, step)
  {
    var scan := new Scan(p, store, first);
    var _ := scan.ScanRepo(false);
    for i := 0 to |cuts|
      invariant scan.Fit() && scan.store == store && scan.p == p && fresh(scan)
      invariant Agrees(p, scan.c, store.tables)
    {
      scan.budget := cuts[i];
      var _ := scan.ScanRepo(true);
    }
    scan.budget := 16;
    var last := scan.ScanRepo(true);
    return last.value;
  }

  // Once step 1 has stored a graph with a node, every later step stores the same snapshot, and no
  // hydration after the first changes the context.
  lemma GraphNeverDrifts(p: Plan, c: Course)
    requires Sane(p) && c == Undisturbed(p)
    requires c.firstRows.Some? && c.firstRows.value.nodes != map[]
    ensures c.modelledRows == c.firstRows && c.fullRows == c.firstRows
    ensures c.full == c.modelled && c.latest == c.full
  {
    var rows := c.firstRows.value;
    assert IsFetch(rows, p.fetch(rows));
    NormalForm(c.first.g, rows, p.fetch(rows));
    assert c.mapped.g == Hydrate(c.first.g, LoadedFrom(rows, p.fetch(rows)));
  }

  lemma {:induction false} HydratingKeepsRest(p: Plan, ctx: Context, stored: seq<Option<Rows>>)
    requires Fetches(p.fetch)
    ensures HydrateFrom(p, ctx, stored).(g := ctx.g) == ctx
  {
    if stored != [] && stored[0] == None { HydratingKeepsRest(p, ctx, stored[1..]); }
  }

  // The contexts of an undisturbed scan: what preprocessing makes of the seed, with the application
  // and the threat model put in, and nothing but the graph changed from then on.
  lemma ContextRestsOnSeed(p: Plan, c: Course)
    requires Fetches(p.fetch) && c == Undisturbed(p)
    ensures c.seed == p.seed && c.first == p.preprocess(p.seed)
    ensures c.mapped.(g := c.first.g) == c.first.(app := p.app)
    ensures c.modelled == c.mapped.(threat := p.threatModel(c.mapped))
    ensures c.full.(g := c.modelled.g) == c.modelled && c.latest.(g := c.full.g) == c.full
  {
    HydratingKeepsRest(p, c.first, [c.firstRows, c.seedRows]);
    HydratingKeepsRest(p, c.modelled, [c.modelledRows, c.firstRows, c.seedRows]);
    HydratingKeepsRest(p, c.full, [c.fullRows, c.fullRows, c.modelledRows, c.firstRows, c.seedRows]);
  }

  function Or(a: Option<Rows>, b: Option<Rows>): Option<Rows> { if a.Some? then a else b }

  // The graph g with the calls, sites and spans loaded from those rows, if there are any.
  ghost predicate PutBack(p: Plan, g: Graph, rows: Option<Rows>, h: Graph)
    requires Fetches(p.fetch)
  {
    match rows
    case None => h == g
    case Some(r) =>
      assert IsFetch(r, p.fetch(r));
      var l := LoadedFrom(r, p.fetch(r));
      h == g.(calls := l.calls, sites := l.sites, spans := l.spans)
  }

  // The graph in a context is put back from the last step before it that stored one.
  lemma LatestIsPutBack(p: Plan, c: Course)
    requires Fetches(p.fetch) && c == Undisturbed(p)
    ensures c.seedRows == RowsOf(c.seed.g) && c.firstRows == RowsOf(c.first.g)
    ensures c.modelledRows == RowsOf(c.modelled.g) && c.fullRows == RowsOf(c.full.g)
    ensures PutBack(p, c.first.g, Or(c.firstRows, c.seedRows), c.mapped.g)
    ensures PutBack(p, c.modelled.g, Or(c.modelledRows, Or(c.firstRows, c.seedRows)), c.full.g)
    ensures PutBack(p, c.full.g, Or(c.fullRows, Or(c.modelledRows, Or(c.firstRows, c.seedRows))), c.latest.g)
  {
    var r0, r1, r2, r3 := c.seedRows, c.firstRows, c.modelledRows, c.fullRows;
    HydratedIs(p, c.first, [r1, r0], [r0]);
    HydratedIs(p, c.first, [r0], []);
    HydratedIs(p, c.modelled, [r2, r1, r0], [r1, r0]);
    HydratedIs(p, c.modelled, [r1, r0], [r0]);
    HydratedIs(p, c.modelled, [r0], []);
    HydratedIs(p, c.full, [r3, r3, r2, r1, r0], [r3, r2, r1, r0]);
    HydratedIs(p, c.full, [r3, r2, r1, r0], [r2, r1, r0]);
    HydratedIs(p, c.full, [r2, r1, r0], [r1, r0]);
    HydratedIs(p, c.full, [r1, r0], [r0]);
    HydratedIs(p, c.full, [r0], []);
  }

  lemma HydratedIs(p: Plan, ctx: Context, stored: seq<Option<Rows>>, rest: seq<Option<Rows>>)
    requires Fetches(p.fetch) && stored != [] && rest == stored[1..]
    ensures stored[0].Some? ==> PutBack(p, ctx.g, stored[0], HydrateFrom(p, ctx, stored).g)
    ensures stored[0].None? ==> HydrateFrom(p, ctx, stored) == HydrateFrom(p, ctx, rest)
    ensures HydrateFrom(p, ctx, []) == ctx
  {
  }

  // Every step but a threat model that was not made leaves a checkpoint of its own shape: with none too
  // large or refused by its schema, a finished scan's can all be loaded.
  lemma OnlyThreatsAreLeftOut(p: Plan, c: Course, t: Tables, step: Step)
    requires Fetches(p.fetch) && c == Undisturbed(p) && Done(p, c, t, step)
    requires forall x | OfStep(step, x) :: |p.dump(x)| <= 104_857_600 && p.read(Name(step), p.dump(x)) == Some(x)
    ensures Loads(p, t, step) || (step.S2? && p.threatModel(c.mapped) == None)
  {
    OwnShape(c, step);
  }

  // Its verdicts: the findings of the deep dive over the manifest, filtered, verified and grouped.
  lemma VerdictsRestOnFindings(p: Plan, c: Course)
    requires Fetches(p.fetch) && c == Undisturbed(p)
    ensures c.manifest == p.decompose(c.full) && c.findings == p.deepDive(c.manifest, c.full)
    ensures var (kept, preDropped) := p.prefilter(c.findings.0, c.full);
      && c.verdicts.preDropped == preDropped
      && p.verify_(kept, c.latest) == (c.verdicts.verified, c.verdicts.dropped)
      && p.dedup(c.verdicts.verified, c.latest) == (c.verdicts.canonical, c.verdicts.dupDropped)
  {
  }

  // Its report: the chain over what is left of the verified findings.
  lemma ReportRestsOnVerdicts(p: Plan, c: Course)
    requires Fetches(p.fetch) && c == Undisturbed(p)
    ensures c.report == p.chain(
      ChainInput(p.enrich(c.verdicts.canonical), c.latest, c.verdicts, c.findings, c.manifest))
  {
  }

  // A fresh scan cut off before its reset, which leaves the tables as they were or the run registered,
  // leaves an earlier scan's checkpoints and graphs loadable.
  lemma StaleBeforeReset(
      t: Tables, u: Tables, run: string, step: string, valid: (string, string) -> bool,
      fetch: Rows -> seq<string>)
    requires Valid(t) && Fetches(fetch) && u in {t, Registered(t, run)}
    ensures CkptAt(u, run, step, valid) == CkptAt(t, run, step, valid)
    ensures GraphAt(u, run, step, fetch) == GraphAt(t, run, step, fetch)
  {
    RegisteringChangesNoLoad(t, run, run, step, valid, fetch);
  }
}
