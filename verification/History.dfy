/** What the graph tables mean: every graph is a list of versions that only grows,
    and forks form a forest that only grows. */
module History {
  import opened Wrappers

  type GraphId = nat
  type Blob = seq<bv8>

  datatype Snapshot = Snapshot(code: string, plan: Option<Blob>)

  datatype Event = DeployEvent(version: nat) | RollbackEvent(version: nat)

  /** Version `v` of a graph is `versions[v - 1]`. The head row has a plan of its own. */
  datatype Graph = Graph(name: string, versions: seq<Snapshot>, plan: Option<Blob>, active: Option<nat>,
                         parent: Option<GraphId>, forkNode: Option<string>, forkLabel: Option<string>,
                         lastEvent: Option<Event>)

  /** `born` lists the graphs in the order of their creation. */
  datatype Book = Book(graphs: map<GraphId, Graph>, born: seq<GraphId>)

  datatype StorageError =
    | GraphNotFound(id: GraphId)
    | VersionNotFound(version: nat, id: GraphId)
    | PlanMissing(id: GraphId)
    | PlanVersionMissing(version: nat, id: GraphId)
    | IdTaken(id: GraphId)

  datatype Op =
    | CreateGraph(id: GraphId, name: string, code: string)
    | UpdateGraph(id: GraphId, code: string)
    | Deploy(id: GraphId, version: nat)
    | Rollback(id: GraphId, version: nat)
    | SavePlan(id: GraphId, version: nat, plan: Blob)
    | ForkGraph(id: GraphId, parent: GraphId, node: string, code: string, caption: Option<string>)

  predicate HasVersion(b: Book, id: GraphId, v: nat) {
    id in b.graphs && 1 <= v <= |b.graphs[id].versions|
  }

  function Failure(b: Book, op: Op): Option<StorageError> {
    match op
    case CreateGraph(id, _, _) => if id in b.graphs then Some(IdTaken(id)) else None
    case UpdateGraph(id, _) => if id in b.graphs then None else Some(GraphNotFound(id))
    case Deploy(id, v) => if HasVersion(b, id, v) then None else Some(VersionNotFound(v, id))
    case Rollback(id, v) => if HasVersion(b, id, v) then None else Some(VersionNotFound(v, id))
    case SavePlan(_, _, _) => None
    case ForkGraph(id, parent, _, _, _) =>
      if parent !in b.graphs then Some(GraphNotFound(parent))
      else if id in b.graphs then Some(IdTaken(id))
      else None
  }

  function NewGraph(name: string, code: string, parent: Option<GraphId>, node: Option<string>, caption: Option<string>): Graph {
    Graph(name, [Snapshot(code, None)], None, None, parent, node, caption, None)
  }

  function Add(b: Book, id: GraphId, g: Graph): Book {
    Book(b.graphs[id := g], b.born + [id])
  }

  function Set(b: Book, id: GraphId, g: Graph): Book {
    b.(graphs := b.graphs[id := g])
  }

  /** The head plan is replaced whatever the version; a version that does not exist gets no plan. */
  function WithPlan(g: Graph, v: nat, plan: Blob): Graph {
    g.(plan := Some(plan),
       versions := if 1 <= v <= |g.versions| then g.versions[v - 1 := g.versions[v - 1].(plan := Some(plan))] else g.versions)
  }

  function RolledBack(g: Graph, v: nat): Graph
    requires 1 <= v <= |g.versions|
  {
    var target := g.versions[v - 1];
    g.(versions := g.versions + [target],
       plan := if target.plan.Some? then target.plan else g.plan,
       active := if g.active.Some? then Some(|g.versions| + 1) else None,
       lastEvent := Some(RollbackEvent(v)))
  }

  function Step(b: Book, op: Op): Book {
    if Failure(b, op).Some? then b
    else
      match op
      case CreateGraph(id, name, code) => Add(b, id, NewGraph(name, code, None, None, None))
      case UpdateGraph(id, code) => Set(b, id, b.graphs[id].(versions := b.graphs[id].versions + [Snapshot(code, None)]))
      case Deploy(id, v) => Set(b, id, b.graphs[id].(active := Some(v), lastEvent := Some(DeployEvent(v))))
      case Rollback(id, v) => Set(b, id, RolledBack(b.graphs[id], v))
      case SavePlan(id, v, plan) => if id in b.graphs then Set(b, id, WithPlan(b.graphs[id], v, plan)) else b
      case ForkGraph(id, parent, node, code, caption) =>
        Add(b, id, NewGraph(b.graphs[parent].name, code, Some(parent), Some(node), caption))
  }

  function Run(b: Book, ops: seq<Op>): Book
    decreases |ops|
  {
    if ops == [] then b else Run(Step(b, ops[0]), ops[1..])
  }

  const Empty := Book(map[], [])

  /** The plan recorded for one version. */
  function PlanOf(b: Book, id: GraphId, v: nat): Result<Blob, StorageError> {
    if !HasVersion(b, id, v) then Err(VersionNotFound(v, id))
    else
      match b.graphs[id].versions[v - 1].plan
      case None => Err(PlanVersionMissing(v, id))
      case Some(plan) => Ok(plan)
  }

  // ── What every run keeps ────────────────────────────────────────

  /** The parent of a graph was created before it. */
  ghost predicate Ordered(b: Book) {
    && (forall i, j :: 0 <= i < j < |b.born| ==> b.born[i] != b.born[j])
    && (forall id :: id in b.graphs <==> id in b.born)
    && (forall i :: 0 <= i < |b.born| ==>
          b.graphs[b.born[i]].parent.None? || b.graphs[b.born[i]].parent.value in b.born[..i])
  }

  ghost predicate Sound(b: Book) {
    && Ordered(b)
    && forall id :: id in b.graphs ==>
        b.graphs[id].versions != [] && (b.graphs[id].active.Some? ==> HasVersion(b, id, b.graphs[id].active.value))
  }

  /** `h` is a later state of `g`: versions were only added, and no code was changed. */
  ghost predicate GraphExtends(g: Graph, h: Graph) {
    && h.name == g.name && h.parent == g.parent && h.forkNode == g.forkNode && h.forkLabel == g.forkLabel
    && |g.versions| <= |h.versions|
    && (forall v :: 0 <= v < |g.versions| ==> h.versions[v].code == g.versions[v].code)
    && (forall v :: 0 <= v < |g.versions| && g.versions[v].plan.Some? ==> h.versions[v].plan.Some?)
  }

  ghost predicate Extends(b: Book, c: Book) {
    && b.born <= c.born
    && forall id :: id in b.graphs ==> id in c.graphs && GraphExtends(b.graphs[id], c.graphs[id])
  }

  lemma AddSound(b: Book, id: GraphId, g: Graph)
    requires Sound(b) && id !in b.graphs
    requires g.versions != [] && g.active.None? && (g.parent.None? || g.parent.value in b.graphs)
    ensures Sound(Add(b, id, g)) && Extends(b, Add(b, id, g))
  {
    AddDistinct(b, id, g);
    forall i | 0 <= i <= |b.born| {
      AddParents(b, id, g, i);
    }
  }

  lemma AddDistinct(b: Book, id: GraphId, g: Graph)
    requires Ordered(b) && id !in b.graphs
    ensures var c := Add(b, id, g);
      && (forall i, j :: 0 <= i < j < |c.born| ==> c.born[i] != c.born[j])
      && (forall x :: x in c.graphs <==> x in c.born)
  {
    assert forall i :: 0 <= i < |b.born| ==> b.born[i] in b.graphs;
  }

  lemma AddParents(b: Book, id: GraphId, g: Graph, i: nat)
    requires Ordered(b) && id !in b.graphs && (g.parent.None? || g.parent.value in b.graphs) && i <= |b.born|
    ensures var c := Add(b, id, g);
      c.born[i] in c.graphs && (c.graphs[c.born[i]].parent.None? || c.graphs[c.born[i]].parent.value in c.born[..i])
  {
    var c := Add(b, id, g);
    assert c.born[..i] == b.born[..i];
    if i < |b.born| {
      assert c.born[i] == b.born[i] && b.born[i] in b.graphs;
    } else {
      assert b.born[..i] == b.born;
    }
  }

  lemma SetSound(b: Book, id: GraphId, g: Graph)
    requires Sound(b) && id in b.graphs && GraphExtends(b.graphs[id], g)
    requires g.active.Some? ==> 1 <= g.active.value <= |g.versions|
    ensures Sound(Set(b, id, g)) && Extends(b, Set(b, id, g))
  {
  }

  lemma StepSound(b: Book, op: Op)
    requires Sound(b)
    ensures Sound(Step(b, op)) && Extends(b, Step(b, op))
  {
    if Failure(b, op).None? {
      match op
      case CreateGraph(id, name, code) => AddSound(b, id, NewGraph(name, code, None, None, None));
      case ForkGraph(id, parent, node, code, caption) =>
        AddSound(b, id, NewGraph(b.graphs[parent].name, code, Some(parent), Some(node), caption));
      case UpdateGraph(id, _) => SetSound(b, id, Step(b, op).graphs[id]);
      case Deploy(id, _) => SetSound(b, id, Step(b, op).graphs[id]);
      case Rollback(id, _) => SetSound(b, id, Step(b, op).graphs[id]);
      case SavePlan(id, _, _) =>
        if id in b.graphs {
          SetSound(b, id, Step(b, op).graphs[id]);
        }
    }
  }

  /** Over every run versions are only added, no recorded code ever changes, a recorded plan
      is never dropped, and a graph keeps its name and its parent. */
  lemma {:induction false} RunExtends(b: Book, ops: seq<Op>)
    requires Sound(b)
    ensures Sound(Run(b, ops)) && Extends(b, Run(b, ops))
    decreases |ops|
  {
    if ops != [] {
      StepSound(b, ops[0]);
      RunExtends(Step(b, ops[0]), ops[1..]);
    }
  }

  /** Every run of the store starts empty. */
  lemma ReachableSound(ops: seq<Op>)
    ensures Sound(Run(Empty, ops))
  {
    RunExtends(Empty, ops);
  }

  // ── Version numbers ─────────────────────────────────────────────

  predicate AddsVersion(b: Book, op: Op, id: GraphId) {
    Failure(b, op).None? && op.id == id && (op.UpdateGraph? || op.Rollback?)
  }

  function VersionsAdded(b: Book, ops: seq<Op>, id: GraphId): nat
    decreases |ops|
  {
    if ops == [] then 0
    else (if AddsVersion(b, ops[0], id) then 1 else 0) + VersionsAdded(Step(b, ops[0]), ops[1..], id)
  }

  lemma VersionsCountChangesOnce(b: Book, op: Op, id: GraphId)
    requires Sound(b) && id in b.graphs
    ensures Sound(Step(b, op)) && id in Step(b, op).graphs
    ensures |Step(b, op).graphs[id].versions| == |b.graphs[id].versions| + if AddsVersion(b, op, id) then 1 else 0
  {
    StepSound(b, op);
  }

  /** One new version for each update and each rollback that succeeded, and none otherwise. */
  lemma {:induction false} VersionsCountChanges(b: Book, ops: seq<Op>, id: GraphId)
    requires Sound(b) && id in b.graphs
    ensures id in Run(b, ops).graphs
    ensures |Run(b, ops).graphs[id].versions| == |b.graphs[id].versions| + VersionsAdded(b, ops, id)
    decreases |ops|
  {
    hide Step;
    if ops != [] {
      VersionsCountChangesOnce(b, ops[0], id);
      VersionsCountChanges(Step(b, ops[0]), ops[1..], id);
    }
  }

  /** Whatever runs in between, a rollback appends the code that version `v` had at the start,
      and every earlier version keeps its code. */
  lemma RollbackRestores(b: Book, ops: seq<Op>, id: GraphId, v: nat)
    requires Sound(b) && HasVersion(b, id, v)
    ensures var c := Run(b, ops);
      var d := Step(c, Rollback(id, v));
      && HasVersion(c, id, v) && id in d.graphs
      && d.graphs[id].versions == c.graphs[id].versions + [c.graphs[id].versions[v - 1]]
      && d.graphs[id].versions[|c.graphs[id].versions|].code == b.graphs[id].versions[v - 1].code
      && (d.graphs[id].active.Some? <==> c.graphs[id].active.Some?)
      && (d.graphs[id].active.Some? ==> d.graphs[id].active.value == |d.graphs[id].versions|)
  {
    RunExtends(b, ops);
  }

  predicate Moves(op: Op, id: GraphId) {
    op.id == id && (op.Deploy? || op.Rollback?)
  }

  lemma ActiveIsStableOnce(b: Book, op: Op, id: GraphId)
    requires Sound(b) && id in b.graphs && !Moves(op, id)
    ensures Sound(Step(b, op)) && Extends(b, Step(b, op))
    ensures id in Step(b, op).graphs && Step(b, op).graphs[id].active == b.graphs[id].active
  {
    StepSound(b, op);
  }

  /** Between deployments and rollbacks of a graph its active version, and the code of that
      version, stay what they are, however often the graph is updated. */
  lemma {:induction false} ActiveIsStable(b: Book, ops: seq<Op>, id: GraphId)
    requires Sound(b) && id in b.graphs && b.graphs[id].active.Some?
    requires forall op :: op in ops ==> !Moves(op, id)
    ensures var c := Run(b, ops);
      var v := b.graphs[id].active.value;
      && HasVersion(b, id, v) && HasVersion(c, id, v) && c.graphs[id].active == Some(v)
      && c.graphs[id].versions[v - 1].code == b.graphs[id].versions[v - 1].code
    decreases |ops|
  {
    hide Step, Sound, Extends;
    ActiveExists(b, id);
    if ops != [] {
      assert !Moves(ops[0], id);
      ActiveIsStableOnce(b, ops[0], id);
      SameCode(b, Step(b, ops[0]), id);
      ActiveIsStable(Step(b, ops[0]), ops[1..], id);
    }
  }

  lemma ActiveExists(b: Book, id: GraphId)
    requires Sound(b) && id in b.graphs && b.graphs[id].active.Some?
    ensures HasVersion(b, id, b.graphs[id].active.value)
  {
  }

  lemma SameCode(b: Book, c: Book, id: GraphId)
    requires Extends(b, c) && id in b.graphs
    ensures id in c.graphs && forall v :: HasVersion(b, id, v) ==>
      HasVersion(c, id, v) && c.graphs[id].versions[v - 1].code == b.graphs[id].versions[v - 1].code
  {
    assert GraphExtends(b.graphs[id], c.graphs[id]);
  }

  // ── The plan of the head row ────────────────────────────────────

  /** The plan of the head row is the plan recorded for the newest version. */
  predicate HeadPlanCurrent(g: Graph) {
    g.versions != [] && g.plan == g.versions[|g.versions| - 1].plan
  }

  /** Exactly when an operation leaves the head plan in step with the newest version. */
  lemma HeadPlanAfter(b: Book, op: Op)
    requires Sound(b) && Failure(b, op).None? && (op.SavePlan? ==> op.id in b.graphs)
    ensures op.id in Step(b, op).graphs
    ensures HeadPlanCurrent(Step(b, op).graphs[op.id]) <==>
      match op
      case CreateGraph(_, _, _) => true
      case ForkGraph(_, _, _, _, _) => true
      case UpdateGraph(id, _) => b.graphs[id].plan.None?
      case Rollback(id, v) => b.graphs[id].versions[v - 1].plan.Some? || b.graphs[id].plan.None?
      case Deploy(id, _) => HeadPlanCurrent(b.graphs[id])
      case SavePlan(id, v, plan) =>
        var newest := |b.graphs[id].versions|;
        v == newest || b.graphs[id].versions[newest - 1].plan == Some(plan)
  {
  }

  /** After a rollback to a version without a plan, the head row has the code of that version
      and the plan of the version before the rollback. */
  lemma RollbackCanLeaveAnOldPlan(plan: Blob)
    ensures var c := Run(Empty, [CreateGraph(0, "g", "a"), UpdateGraph(0, "b"), SavePlan(0, 2, plan), Rollback(0, 1)]);
      0 in c.graphs && c.graphs[0].plan == Some(plan)
      && c.graphs[0].versions == [Snapshot("a", None), Snapshot("b", Some(plan)), Snapshot("a", None)]
  {
    var b1 := Step(Empty, CreateGraph(0, "g", "a"));
    var b2 := Step(b1, UpdateGraph(0, "b"));
    var b3 := Step(b2, SavePlan(0, 2, plan));
    var b4 := Step(b3, Rollback(0, 1));
    assert b3.graphs[0].versions == [Snapshot("a", None), Snapshot("b", Some(plan))];
    RunFour(Empty, CreateGraph(0, "g", "a"), UpdateGraph(0, "b"), SavePlan(0, 2, plan), Rollback(0, 1));
  }

  lemma RunFour(b: Book, w: Op, x: Op, y: Op, z: Op)
    ensures Run(b, [w, x, y, z]) == Step(Step(Step(Step(b, w), x), y), z)
  {
    hide Step;
    assert [w, x, y, z][1..] == [x, y, z];
    assert [x, y, z][1..] == [y, z];
    assert [y, z][1..] == [z];
    assert Run(b, [w, x, y, z]) == Run(Step(b, w), [x, y, z]);
    assert Run(Step(b, w), [x, y, z]) == Run(Step(Step(b, w), x), [y, z]);
    assert Run(Step(Step(Step(b, w), x), y), [z]) == Run(Step(Step(Step(Step(b, w), x), y), z), []);
  }

  // ── The fork forest ─────────────────────────────────────────────

  ghost function BirthOf(b: Book, id: GraphId): (i: nat)
    requires Ordered(b) && id in b.graphs
    ensures i < |b.born| && b.born[i] == id
  {
    var i :| 0 <= i < |b.born| && b.born[i] == id;
    i
  }

  lemma ParentIsOlder(b: Book, id: GraphId)
    requires Ordered(b) && id in b.graphs && b.graphs[id].parent.Some?
    ensures b.graphs[id].parent.value in b.graphs
    ensures BirthOf(b, b.graphs[id].parent.value) < BirthOf(b, id)
  {
    var i, p := BirthOf(b, id), b.graphs[id].parent.value;
    assert p in b.born[..i];
    var j :| 0 <= j < i && b.born[..i][j] == p;
    assert b.born[j] == p;
  }

  /** From the root of the forks down to the graph itself. */
  ghost function Lineage(b: Book, id: GraphId): (r: seq<GraphId>)
    requires Ordered(b) && id in b.graphs
    ensures r != [] && r[|r| - 1] == id
    ensures forall x :: x in r ==> x in b.graphs
    decreases BirthOf(b, id)
  {
    match b.graphs[id].parent
    case None => [id]
    case Some(p) =>
      ParentIsOlder(b, id);
      Lineage(b, p) + [id]
  }

  /** The graphs of `ids` whose parent is `id`, in the same order. */
  function ChildrenAmong(graphs: map<GraphId, Graph>, ids: seq<GraphId>, id: GraphId): (r: seq<GraphId>)
    ensures forall x :: x in r <==> x in ids && x in graphs && graphs[x].parent == Some(id)
  {
    if ids == [] then []
    else
      (if ids[0] in graphs && graphs[ids[0]].parent == Some(id) then [ids[0]] else [])
      + ChildrenAmong(graphs, ids[1..], id)
  }

  function Children(b: Book, id: GraphId): (r: seq<GraphId>)
    ensures forall x :: x in r <==> x in b.born && x in b.graphs && b.graphs[x].parent == Some(id)
  {
    ChildrenAmong(b.graphs, b.born, id)
  }

  datatype Tree = Tree(id: GraphId, children: seq<Tree>)

  ghost function TreeOf(b: Book, id: GraphId): Tree
    requires Ordered(b) && id in b.graphs
    decreases |b.born| - BirthOf(b, id), 1
  {
    Tree(id, TreesOf(b, id, Children(b, id)))
  }

  ghost function TreesOf(b: Book, id: GraphId, kids: seq<GraphId>): (r: seq<Tree>)
    requires Ordered(b) && id in b.graphs && forall x :: x in kids ==> x in Children(b, id)
    ensures |r| == |kids|
    decreases |b.born| - BirthOf(b, id), 0, |kids|
  {
    if kids == [] then []
    else
      assert kids[0] in Children(b, id);
      ParentIsOlder(b, kids[0]);
      [TreeOf(b, kids[0])] + TreesOf(b, id, kids[1..])
  }

  lemma {:induction false} TreesAt(b: Book, id: GraphId, kids: seq<GraphId>, i: nat)
    requires Ordered(b) && id in b.graphs && (forall x :: x in kids ==> x in Children(b, id)) && i < |kids|
    ensures kids[i] in b.graphs && BirthOf(b, id) < BirthOf(b, kids[i])
    ensures TreesOf(b, id, kids)[i] == TreeOf(b, kids[i])
  {
    assert kids[i] in Children(b, id);
    ParentIsOlder(b, kids[i]);
    if i > 0 {
      TreesAt(b, id, kids[1..], i - 1);
    }
  }

  /** The graphs of a tree, each parent before its children. */
  function Members(t: Tree): seq<GraphId> {
    [t.id] + AllMembers(t.children)
  }

  function AllMembers(ts: seq<Tree>): seq<GraphId> {
    if ts == [] then [] else Members(ts[0]) + AllMembers(ts[1..])
  }

  lemma {:induction false} InAllMembers(ts: seq<Tree>, x: GraphId)
    ensures x in AllMembers(ts) <==> exists i :: 0 <= i < |ts| && x in Members(ts[i])
  {
    if ts != [] {
      InAllMembers(ts[1..], x);
      assert forall i :: 1 <= i < |ts| ==> ts[i] == ts[1..][i - 1];
      if x in AllMembers(ts[1..]) {
        var i :| 0 <= i < |ts| - 1 && x in Members(ts[1..][i]);
        assert x in Members(ts[i + 1]);
      }
    }
  }

  /** The lineage of an ancestor begins the lineage of a graph, and only theirs do. */
  lemma {:induction false} AncestorsBegin(b: Book, r: GraphId, x: GraphId)
    requires Ordered(b) && r in b.graphs && x in b.graphs
    ensures r in Lineage(b, x) <==> Lineage(b, r) <= Lineage(b, x)
    decreases BirthOf(b, x)
  {
    if b.graphs[x].parent.Some? {
      var p := b.graphs[x].parent.value;
      ParentIsOlder(b, x);
      AncestorsBegin(b, r, p);
    }
    if Lineage(b, r) <= Lineage(b, x) {
      assert r == Lineage(b, x)[|Lineage(b, r)| - 1];
    }
  }

  /** A proper descendant descends from exactly one child. */
  lemma {:induction false} ThroughChild(b: Book, r: GraphId, x: GraphId)
    requires Ordered(b) && r in b.graphs && x in b.graphs && r in Lineage(b, x) && r != x
    ensures exists c :: c in Children(b, r) && c in Lineage(b, x)
    decreases BirthOf(b, x)
  {
    var p := b.graphs[x].parent.value;
    ParentIsOlder(b, x);
    if p == r {
      assert x in Children(b, r) && x in Lineage(b, x);
    } else {
      ThroughChild(b, r, p);
      var c :| c in Children(b, r) && c in Lineage(b, p);
      assert c in Lineage(b, x);
    }
  }

  lemma OneChild(b: Book, r: GraphId, c: GraphId, d: GraphId, x: GraphId)
    requires Ordered(b) && r in b.graphs && x in b.graphs
    requires c in Children(b, r) && d in Children(b, r) && c in Lineage(b, x) && d in Lineage(b, x)
    ensures c == d
  {
    AncestorsBegin(b, c, x);
    AncestorsBegin(b, d, x);
    ParentIsOlder(b, c);
    ParentIsOlder(b, d);
    assert |Lineage(b, c)| == |Lineage(b, d)|;
  }

  lemma BelowChild(b: Book, r: GraphId, c: GraphId, x: GraphId)
    requires Ordered(b) && r in b.graphs && x in b.graphs && c in Children(b, r) && c in Lineage(b, x)
    ensures r in Lineage(b, x)
  {
    ParentIsOlder(b, c);
    AncestorsBegin(b, c, x);
    AncestorsBegin(b, r, x);
    assert Lineage(b, r) <= Lineage(b, c);
  }

  /** Walking up and walking down agree: a graph is in the tree of `r` exactly if `r` is in its lineage. */
  lemma {:induction false} TreeIsDescendants(b: Book, r: GraphId, x: GraphId)
    requires Ordered(b) && r in b.graphs
    ensures x in Members(TreeOf(b, r)) <==> x in b.graphs && r in Lineage(b, x)
    decreases |b.born| - BirthOf(b, r)
  {
    hide Lineage, TreesOf, Children, Ordered;
    var kids := Children(b, r);
    var trees := TreesOf(b, r, kids);
    forall i | 0 <= i < |kids|
      ensures x in Members(trees[i]) <==> x in b.graphs && kids[i] in Lineage(b, x)
    {
      TreesAt(b, r, kids, i);
      TreeIsDescendants(b, kids[i], x);
    }
    InAllMembers(trees, x);
    if x in AllMembers(trees) {
      var i :| 0 <= i < |trees| && x in Members(trees[i]);
      BelowChild(b, r, kids[i], x);
    }
    if x in b.graphs && r in Lineage(b, x) && x != r {
      ThroughChild(b, r, x);
      var c :| c in kids && c in Lineage(b, x);
      var i :| 0 <= i < |kids| && kids[i] == c;
      assert x in Members(trees[i]);
    }
  }

  ghost predicate Distinct(s: seq<GraphId>) {
    forall i, j :: 0 <= i < j < |s| ==> s[i] != s[j]
  }

  lemma DistinctConcat(s: seq<GraphId>, t: seq<GraphId>)
    requires Distinct(s) && Distinct(t) && forall x :: x in s ==> x !in t
    ensures Distinct(s + t)
  {
    forall i, j | 0 <= i < j < |s + t|
      ensures (s + t)[i] != (s + t)[j]
    {
      assert i < |s| ==> (s + t)[i] in s;
      assert j >= |s| ==> (s + t)[j] in t;
    }
  }

  lemma {:induction false} AllMembersDistinct(ts: seq<Tree>)
    requires forall i :: 0 <= i < |ts| ==> Distinct(Members(ts[i]))
    requires forall i, j, x :: 0 <= i < j < |ts| && x in Members(ts[i]) ==> x !in Members(ts[j])
    ensures Distinct(AllMembers(ts))
  {
    hide Distinct;
    if ts == [] {
      DistinctEmpty();
    } else {
      assert forall i :: 0 <= i < |ts| - 1 ==> ts[1..][i] == ts[i + 1];
      AllMembersDistinct(ts[1..]);
      forall x | x in Members(ts[0])
        ensures x !in AllMembers(ts[1..])
      {
        InAllMembers(ts[1..], x);
      }
      DistinctConcat(Members(ts[0]), AllMembers(ts[1..]));
    }
  }

  lemma DistinctEmpty()
    ensures Distinct([])
  {
  }

  lemma {:induction false} ChildrenDistinct(graphs: map<GraphId, Graph>, ids: seq<GraphId>, id: GraphId)
    requires Distinct(ids)
    ensures Distinct(ChildrenAmong(graphs, ids, id))
  {
    if ids != [] {
      ChildrenDistinct(graphs, ids[1..], id);
      assert ids[0] !in ids[1..];
    }
  }

  /** No graph is listed twice in a tree. */
  lemma {:induction false} TreeListsOnce(b: Book, r: GraphId)
    requires Ordered(b) && r in b.graphs
    ensures Distinct(Members(TreeOf(b, r)))
    decreases |b.born| - BirthOf(b, r)
  {
    hide Lineage, TreesOf;
    var kids := Children(b, r);
    var trees := TreesOf(b, r, kids);
    ChildrenDistinct(b.graphs, b.born, r);
    forall i | 0 <= i < |trees|
      ensures Distinct(Members(trees[i]))
    {
      TreesAt(b, r, kids, i);
      TreeListsOnce(b, kids[i]);
    }
    forall i, j, x | 0 <= i < j < |trees| && x in Members(trees[i])
      ensures x !in Members(trees[j])
    {
      TreesAt(b, r, kids, i);
      TreesAt(b, r, kids, j);
      TreeIsDescendants(b, kids[i], x);
      TreeIsDescendants(b, kids[j], x);
      if x in Members(trees[j]) {
        OneChild(b, r, kids[i], kids[j], x);
      }
    }
    AllMembersDistinct(trees);
    RootNotBelow(b, r);
    DistinctConcat([r], AllMembers(trees));
  }

  lemma RootNotBelow(b: Book, r: GraphId)
    requires Ordered(b) && r in b.graphs
    ensures r !in AllMembers(TreesOf(b, r, Children(b, r)))
  {
    hide TreesOf;
    var kids := Children(b, r);
    var trees := TreesOf(b, r, kids);
    InAllMembers(trees, r);
    forall i | 0 <= i < |trees|
      ensures r !in Members(trees[i])
    {
      TreesAt(b, r, kids, i);
      TreeIsDescendants(b, kids[i], r);
      AncestorsBegin(b, kids[i], r);
      assert kids[i] in kids;
      assert |Lineage(b, kids[i])| == |Lineage(b, r)| + 1;
    }
  }

  /** Whatever happens later, the lineage of a graph stays the same. */
  lemma {:induction false} LineageIsFixed(b: Book, c: Book, id: GraphId)
    requires Ordered(b) && Ordered(c) && Extends(b, c) && id in b.graphs
    ensures Lineage(c, id) == Lineage(b, id)
    decreases BirthOf(b, id)
  {
    if b.graphs[id].parent.Some? {
      ParentIsOlder(b, id);
      LineageIsFixed(b, c, b.graphs[id].parent.value);
    }
  }

  lemma ForkLineage(b: Book, op: Op)
    requires op.ForkGraph? && Failure(b, op).None? && Ordered(Step(b, op)) && op.parent in Step(b, op).graphs
    ensures var c := Step(b, op);
      && c.graphs.Keys == b.graphs.Keys + {op.id} && op.id !in b.graphs && op.parent in b.graphs
      && Lineage(c, op.id) == Lineage(c, op.parent) + [op.id]
  {
    hide Ordered;
    ForkAdds(b, op);
    hide Step;
    LineageUp(Step(b, op), op.id);
  }

  lemma ForkAdds(b: Book, op: Op)
    requires op.ForkGraph? && Failure(b, op).None?
    ensures var c := Step(b, op);
      && c.graphs.Keys == b.graphs.Keys + {op.id} && op.id !in b.graphs && op.parent in b.graphs
      && c.graphs[op.id].parent == Some(op.parent)
  {
  }

  lemma LineageUp(b: Book, id: GraphId)
    requires Ordered(b) && id in b.graphs && b.graphs[id].parent.Some?
    ensures b.graphs[id].parent.value in b.graphs && Lineage(b, id) == Lineage(b, b.graphs[id].parent.value) + [id]
  {
    ParentIsOlder(b, id);
  }

  lemma SoundOrdered(b: Book)
    requires Sound(b)
    ensures Ordered(b)
  {
  }

  /** A fork puts one graph at the end of its parent's lineage, and below its parent in the tree
      of every ancestor; nothing else moves. */
  lemma ForkExtendsLineage(b: Book, op: Op, r: GraphId)
    requires Sound(b) && op.ForkGraph? && Failure(b, op).None? && r in b.graphs
    ensures var c := Step(b, op);
      && Sound(c) && op.parent in b.graphs && Lineage(c, op.id) == Lineage(b, op.parent) + [op.id]
      && (forall x :: x in Members(TreeOf(c, r)) <==>
            x in Members(TreeOf(b, r)) || (x == op.id && op.parent in Members(TreeOf(b, r))))
  {
    hide Step, Sound, Extends, Ordered, Members, TreeOf, Lineage;
    StepSound(b, op);
    var c := Step(b, op);
    SoundOrdered(b);
    SoundOrdered(c);
    ForkAdds(b, op);
    LineageIsFixed(b, c, op.parent);
    ForkLineage(b, op);
    TreeIsDescendants(b, r, op.parent);
    forall x
      ensures x in Members(TreeOf(c, r)) <==>
        x in Members(TreeOf(b, r)) || (x == op.id && op.parent in Members(TreeOf(b, r)))
    {
      TreeIsDescendants(b, r, x);
      TreeIsDescendants(c, r, x);
      if x in b.graphs {
        LineageIsFixed(b, c, x);
      }
    }
  }
}
