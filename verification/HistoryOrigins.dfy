/** Where everything that a store has recorded comes from: the operations of the run. */
module HistoryOrigins {
  import opened Wrappers
  import opened History

  // ── Runs from the end ───────────────────────────────────────────

  lemma {:induction false} RunThen(b: Book, ops: seq<Op>, op: Op)
    ensures Run(b, ops + [op]) == Step(Run(b, ops), op)
    decreases |ops|
  {
    hide Step;
    var all := ops + [op];
    if ops == [] {
      assert all[1..] == [];
      assert Run(b, all) == Run(Step(b, op), []);
    } else {
      assert all[0] == ops[0] && all[1..] == ops[1..] + [op];
      RunThen(Step(b, ops[0]), ops[1..], op);
    }
  }

  /** The book before operation `k`. */
  function Before(ops: seq<Op>, k: nat): Book
    requires k <= |ops|
  {
    Run(Empty, ops[..k])
  }

  lemma LastStep(ops: seq<Op>)
    requires ops != []
    ensures var front, op := ops[..|ops| - 1], ops[|ops| - 1];
      Run(Empty, ops) == Step(Run(Empty, front), op) && Sound(Run(Empty, front)) && Extends(Run(Empty, front), Run(Empty, ops))
  {
    var front, op := ops[..|ops| - 1], ops[|ops| - 1];
    assert ops == front + [op];
    RunThen(Empty, front, op);
    ReachableSound(front);
    StepSound(Run(Empty, front), op);
  }

  lemma SameBefore(ops: seq<Op>, k: nat)
    requires ops != [] && k < |ops|
    ensures Before(ops, k) == Before(ops[..|ops| - 1], k)
  {
    assert ops[..k] == ops[..|ops| - 1][..k];
  }

  // ── Versions and their code ─────────────────────────────────────

  /** The operation, on this book, makes version `v` of the graph with this code. */
  ghost predicate Makes(b: Book, op: Op, id: GraphId, v: nat, code: string) {
    op.id == id &&
    match op
    case CreateGraph(_, _, c) => id !in b.graphs && v == 1 && c == code
    case ForkGraph(_, parent, _, c, _) => id !in b.graphs && parent in b.graphs && v == 1 && c == code
    case UpdateGraph(_, c) => id in b.graphs && v == |b.graphs[id].versions| + 1 && c == code
    case Rollback(_, w) =>
      HasVersion(b, id, w) && v == |b.graphs[id].versions| + 1 && b.graphs[id].versions[w - 1].code == code
    case _ => false
  }

  ghost predicate MadeAt(ops: seq<Op>, k: nat, id: GraphId, v: nat, code: string) {
    k < |ops| && Makes(Before(ops, k), ops[k], id, v, code)
  }

  ghost predicate CodeIs(b: Book, id: GraphId, v: nat, code: string) {
    HasVersion(b, id, v) && b.graphs[id].versions[v - 1].code == code
  }

  lemma StepMakes(b: Book, op: Op, id: GraphId, v: nat, code: string)
    requires Sound(b)
    ensures CodeIs(Step(b, op), id, v, code) <==> CodeIs(b, id, v, code) || Makes(b, op, id, v, code)
  {
  }

  /** A version has the code that the operation that made it brought along, or found in the version it rolled back to;
      and every such operation made its version. */
  lemma {:induction false} CodeOrigin(ops: seq<Op>, id: GraphId, v: nat, code: string)
    ensures CodeIs(Run(Empty, ops), id, v, code) <==> exists k: nat :: MadeAt(ops, k, id, v, code)
    decreases |ops|
  {
    hide Makes, Sound, Extends, CodeIs;
    if ops == [] {
      NothingMade(id, v, code);
    } else {
      var front := ops[..|ops| - 1];
      LastStep(ops);
      CodeOrigin(front, id, v, code);
      StepMakes(Run(Empty, front), ops[|ops| - 1], id, v, code);
      forall k: nat | k < |front|
        ensures MadeAt(ops, k, id, v, code) <==> MadeAt(front, k, id, v, code)
      {
        SameBefore(ops, k);
      }
      assert MadeAt(ops, |front|, id, v, code) <==> Makes(Run(Empty, front), ops[|ops| - 1], id, v, code);
    }
  }

  lemma NothingMade(id: GraphId, v: nat, code: string)
    ensures !CodeIs(Run(Empty, []), id, v, code)
  {
  }

  // ── The active version ──────────────────────────────────────────

  /** The operation, on this book, makes `v` the active version: a deployment of it, or a rollback of a graph
      that is deployed. */
  ghost predicate Activates(b: Book, op: Op, id: GraphId, v: nat) {
    op.id == id &&
    match op
    case Deploy(_, w) => HasVersion(b, id, w) && v == w
    case Rollback(_, w) => HasVersion(b, id, w) && b.graphs[id].active.Some? && v == |b.graphs[id].versions| + 1
    case _ => false
  }

  ghost predicate ActivatedAt(ops: seq<Op>, k: nat, id: GraphId, v: nat) {
    k < |ops| && Activates(Before(ops, k), ops[k], id, v)
  }

  ghost predicate ActiveIs(b: Book, id: GraphId, v: nat) {
    id in b.graphs && b.graphs[id].active == Some(v)
  }

  lemma StepActivates(b: Book, op: Op, id: GraphId, v: nat)
    requires Sound(b)
    ensures ActiveIs(Step(b, op), id, v) <==> Activates(b, op, id, v) || (ActiveIs(b, id, v) && forall w :: !Activates(b, op, id, w))
  {
    if Activates(b, op, id, v) {
      assert forall w :: Activates(b, op, id, w) ==> w == v;
    } else if ActiveIs(Step(b, op), id, v) {
      assert forall w :: Activates(b, op, id, w) ==> ActiveIs(Step(b, op), id, w);
    } else if ActiveIs(b, id, v) {
      assert Activates(b, op, id, if op.Deploy? then op.version else |b.graphs[id].versions| + 1);
    }
  }

  ghost predicate LastActivation(ops: seq<Op>, k: nat, id: GraphId, v: nat) {
    ActivatedAt(ops, k, id, v) && forall j: nat, w :: k < j ==> !ActivatedAt(ops, j, id, w)
  }

  /** The active version is the one that the last deployment, or rollback of the deployed graph, made active. */
  lemma {:induction false} ActiveOrigin(ops: seq<Op>, id: GraphId, v: nat)
    ensures ActiveIs(Run(Empty, ops), id, v) <==> exists k: nat :: LastActivation(ops, k, id, v)
    decreases |ops|
  {
    hide Activates, Sound, Extends, ActiveIs;
    if ops == [] {
      NothingActive(id, v);
    } else {
      var front, n := ops[..|ops| - 1], |ops| - 1;
      LastStep(ops);
      ActiveOrigin(front, id, v);
      StepActivates(Run(Empty, front), ops[n], id, v);
      forall k: nat, w | k < n
        ensures ActivatedAt(ops, k, id, w) <==> ActivatedAt(front, k, id, w)
      {
        SameBefore(ops, k);
      }
      assert ops[..n] == front;
      assert forall w :: ActivatedAt(ops, n, id, w) <==> Activates(Run(Empty, front), ops[n], id, w);
      if Activates(Run(Empty, front), ops[n], id, v) {
        assert LastActivation(ops, n, id, v);
      }
      if k: nat :| LastActivation(front, k, id, v) && forall w :: !ActivatedAt(ops, n, id, w) {
        assert LastActivation(ops, k, id, v);
      }
      if k: nat :| LastActivation(ops, k, id, v) && k < n {
        assert LastActivation(front, k, id, v);
      }
    }
  }

  lemma NothingActive(id: GraphId, v: nat)
    ensures !ActiveIs(Run(Empty, []), id, v)
  {
  }

  // ── The plan of a version ───────────────────────────────────────

  /** The operation, on this book, gives version `v` this plan, or leaves it without one if it is new. */
  ghost predicate Plans(b: Book, op: Op, id: GraphId, v: nat, plan: Option<Blob>) {
    op.id == id &&
    match op
    case CreateGraph(_, _, _) => id !in b.graphs && v == 1 && plan == None
    case ForkGraph(_, parent, _, _, _) => id !in b.graphs && parent in b.graphs && v == 1 && plan == None
    case UpdateGraph(_, _) => id in b.graphs && v == |b.graphs[id].versions| + 1 && plan == None
    case Rollback(_, w) =>
      HasVersion(b, id, w) && v == |b.graphs[id].versions| + 1 && b.graphs[id].versions[w - 1].plan == plan
    case SavePlan(_, w, p) => HasVersion(b, id, w) && v == w && plan == Some(p)
    case _ => false
  }

  ghost predicate PlannedAt(ops: seq<Op>, k: nat, id: GraphId, v: nat, plan: Option<Blob>) {
    k < |ops| && Plans(Before(ops, k), ops[k], id, v, plan)
  }

  ghost predicate PlanIs(b: Book, id: GraphId, v: nat, plan: Option<Blob>) {
    HasVersion(b, id, v) && b.graphs[id].versions[v - 1].plan == plan
  }

  lemma StepPlans(b: Book, op: Op, id: GraphId, v: nat, plan: Option<Blob>)
    requires Sound(b)
    ensures PlanIs(Step(b, op), id, v, plan) <==>
      Plans(b, op, id, v, plan) || (PlanIs(b, id, v, plan) && forall p :: !Plans(b, op, id, v, p))
  {
    if Plans(b, op, id, v, plan) {
      assert forall p :: Plans(b, op, id, v, p) ==> p == plan;
    } else if PlanIs(Step(b, op), id, v, plan) {
      assert forall p :: Plans(b, op, id, v, p) ==> PlanIs(Step(b, op), id, v, p);
    } else if PlanIs(b, id, v, plan) {
      assert op.SavePlan? && Plans(b, op, id, v, Some(op.plan));
    }
  }

  ghost predicate LastPlanning(ops: seq<Op>, k: nat, id: GraphId, v: nat, plan: Option<Blob>) {
    PlannedAt(ops, k, id, v, plan) && forall j: nat, p :: k < j ==> !PlannedAt(ops, j, id, v, p)
  }

  /** The plan of a version is the last one that was saved for it, or else what it was made with: that of the
      version it rolled back to, or none. */
  lemma {:induction false} PlanOrigin(ops: seq<Op>, id: GraphId, v: nat, plan: Option<Blob>)
    ensures PlanIs(Run(Empty, ops), id, v, plan) <==> exists k: nat :: LastPlanning(ops, k, id, v, plan)
    decreases |ops|
  {
    hide Plans, Sound, Extends, PlanIs;
    if ops == [] {
      NothingPlanned(id, v, plan);
    } else {
      var front, n := ops[..|ops| - 1], |ops| - 1;
      LastStep(ops);
      PlanOrigin(front, id, v, plan);
      StepPlans(Run(Empty, front), ops[n], id, v, plan);
      forall k: nat, p | k < n
        ensures PlannedAt(ops, k, id, v, p) <==> PlannedAt(front, k, id, v, p)
      {
        SameBefore(ops, k);
      }
      assert ops[..n] == front;
      assert forall p :: PlannedAt(ops, n, id, v, p) <==> Plans(Run(Empty, front), ops[n], id, v, p);
      if Plans(Run(Empty, front), ops[n], id, v, plan) {
        assert LastPlanning(ops, n, id, v, plan);
      }
      if k: nat :| LastPlanning(front, k, id, v, plan) && forall p :: !PlannedAt(ops, n, id, v, p) {
        assert LastPlanning(ops, k, id, v, plan);
      }
      if k: nat :| LastPlanning(ops, k, id, v, plan) && k < n {
        assert LastPlanning(front, k, id, v, plan);
      }
    }
  }

  lemma NothingPlanned(id: GraphId, v: nat, plan: Option<Blob>)
    ensures !PlanIs(Run(Empty, []), id, v, plan)
  {
  }

  // ── Graphs ──────────────────────────────────────────────────────

  /** The operation, on this book, brings this graph about. */
  ghost predicate Founds(b: Book, op: Op, id: GraphId, name: string, parent: Option<GraphId>) {
    op.id == id && id !in b.graphs &&
    match op
    case CreateGraph(_, n, _) => name == n && parent == None
    case ForkGraph(_, p, _, _, _) => p in b.graphs && name == b.graphs[p].name && parent == Some(p)
    case _ => false
  }

  /** A graph has the name that it was created with, or that of the graph it was forked from. */
  lemma {:induction false} GraphOrigin(ops: seq<Op>, id: GraphId)
    requires id in Run(Empty, ops).graphs
    ensures var g := Run(Empty, ops).graphs[id];
      exists k :: 0 <= k < |ops| && Founds(Before(ops, k), ops[k], id, g.name, g.parent)
    decreases |ops|
  {
    hide Sound;
    if ops != [] {
      var front, n := ops[..|ops| - 1], |ops| - 1;
      LastStep(ops);
      assert ops[..n] == front;
      if id in Run(Empty, front).graphs {
        GraphOrigin(front, id);
        var g := Run(Empty, front).graphs[id];
        var k :| 0 <= k < |front| && Founds(Before(front, k), front[k], id, g.name, g.parent);
        SameBefore(ops, k);
        assert Founds(Before(ops, k), ops[k], id, g.name, g.parent);
      } else {
        StepFounds(Run(Empty, front), ops[n], id);
        assert Before(ops, n) == Run(Empty, front);
      }
    }
  }

  lemma StepFounds(b: Book, op: Op, id: GraphId)
    requires id !in b.graphs && id in Step(b, op).graphs
    ensures Founds(b, op, id, Step(b, op).graphs[id].name, Step(b, op).graphs[id].parent)
  {
  }

  // ── Lineages ────────────────────────────────────────────────────

  /** A lineage starts at a graph that is no fork, and each graph in it is the parent of the next. */
  lemma {:induction false} LineageClimbs(b: Book, id: GraphId)
    requires Ordered(b) && id in b.graphs
    ensures var r := Lineage(b, id);
      && b.graphs[r[0]].parent == None && r[|r| - 1] == id
      && forall i :: 0 < i < |r| ==> b.graphs[r[i]].parent == Some(r[i - 1])
    decreases BirthOf(b, id)
  {
    if b.graphs[id].parent.Some? {
      ParentIsOlder(b, id);
      LineageClimbs(b, b.graphs[id].parent.value);
    }
  }

  // ── Children ────────────────────────────────────────────────────

  ghost predicate InTurn(ids: seq<GraphId>, x: GraphId, y: GraphId) {
    exists p, q :: 0 <= p < q < |ids| && ids[p] == x && ids[q] == y
  }

  lemma InTurnLater(ids: seq<GraphId>, x: GraphId, y: GraphId)
    requires ids != [] && (InTurn(ids[1..], x, y) || (ids[0] == x && y in ids[1..]))
    ensures InTurn(ids, x, y)
  {
    var rest := ids[1..];
    if InTurn(rest, x, y) {
      var p, q :| 0 <= p < q < |rest| && rest[p] == x && rest[q] == y;
      assert ids[p + 1] == x && ids[q + 1] == y;
    } else {
      var q :| 0 <= q < |rest| && rest[q] == y;
      assert ids[q + 1] == y;
    }
  }

  lemma {:induction false} AmongInOrder(graphs: map<GraphId, Graph>, ids: seq<GraphId>, id: GraphId, i: nat, j: nat)
    requires i < j < |ChildrenAmong(graphs, ids, id)|
    ensures InTurn(ids, ChildrenAmong(graphs, ids, id)[i], ChildrenAmong(graphs, ids, id)[j])
  {
    hide InTurn;
    var r, rest := ChildrenAmong(graphs, ids, id), ChildrenAmong(graphs, ids[1..], id);
    if |r| == |rest| {
      AmongInOrder(graphs, ids[1..], id, i, j);
    } else if i > 0 {
      AmongInOrder(graphs, ids[1..], id, i - 1, j - 1);
    } else {
      assert r[j] == rest[j - 1] && rest[j - 1] in rest;
    }
    InTurnLater(ids, r[i], r[j]);
  }

  /** The children of a graph are listed in the order in which they were forked. */
  lemma ChildrenByBirth(b: Book, id: GraphId, i: nat, j: nat)
    requires Ordered(b) && i < j < |Children(b, id)|
    ensures Children(b, id)[i] in b.graphs && Children(b, id)[j] in b.graphs
    ensures BirthOf(b, Children(b, id)[i]) < BirthOf(b, Children(b, id)[j])
  {
    AmongInOrder(b.graphs, b.born, id, i, j);
    var kids := Children(b, id);
    assert kids[i] in kids && kids[j] in kids;
    var p, q :| 0 <= p < q < |b.born| && b.born[p] == kids[i] && b.born[q] == kids[j];
  }
}
