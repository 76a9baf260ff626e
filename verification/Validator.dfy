/** Static validation of a plan: each check against what it means in the graph. */
module Validator {
  import opened Wrappers
  import opened Graphs
  import opened Plan

  datatype Problem =
    | DuplicateId | UnknownSource | UnknownTarget
    | NoNodes | HasCycle | Unreachable | NoTerminals | NoTerminalAhead
    | MissingArg(key: string)
    | FewBranches | MissingTrue | MissingFalse | Unconditional(to: Id)
    | NoLoopBody | NoParallelBranch | ParallelCondition(to: Id) | ConditionOn(to: Id, kind: EdgeKind)

  /** `None` stands for the plan as a whole. */
  datatype ValidationError = ValidationError(node: Option<Id>, problem: Problem)

  predicate IsTerminalOpcode(op: Opcode) {
    op == Act || op == Error
  }

  function RequiredArgs(op: Opcode): set<string> {
    match op
    case Input => {"name"}
    case Call => {"type", "target"}
    case Decide => {"condition"}
    case Switch => {"condition"}
    case Act => {"type"}
    case Loop => {"max_iterations"}
    case Error => {"message"}
    case _ => {}
  }

  // ── What each check means ───────────────────────────────────────

  /** The cycle check ignores the edges that enter a LOOP. */
  function LoopIds(nodes: seq<Node>): set<Id> {
    set n | n in nodes && n.op == Loop :: n.id
  }

  function NonLoopEdges(edges: seq<Edge>, loops: set<Id>): (r: seq<Edge>)
    ensures forall e :: e in r <==> e in edges && e.to !in loops
  {
    if edges == [] then []
    else (if edges[0].to in loops then [] else [edges[0]]) + NonLoopEdges(edges[1..], loops)
  }

  function DataEdges(edges: seq<Edge>): (r: seq<Edge>)
    ensures forall e :: e in r <==> e in edges && e.kind == Data
  {
    if edges == [] then []
    else (if edges[0].kind == Data then [edges[0]] else []) + DataEdges(edges[1..])
  }

  predicate HasIncoming(edges: seq<Edge>, id: Id) {
    exists e :: e in edges && e.to == id
  }

  ghost predicate FromRoot(nodes: seq<Node>, edges: seq<Edge>, id: Id) {
    exists r :: r in Ids(nodes) && !HasIncoming(edges, r) && Reaches(Arcs(edges), r, id)
  }

  /** The unconditional data successors of a LOOP start its body. */
  ghost predicate StartsBody(nodes: seq<Node>, edges: seq<Edge>, id: Id) {
    exists e :: e in edges && e.from in LoopIds(nodes) && e.condition.None? && e.kind == Data && e.to == id
  }

  ghost predicate InLoopBody(nodes: seq<Node>, edges: seq<Edge>, id: Id) {
    exists b :: StartsBody(nodes, edges, b) && Reaches(Arcs(DataEdges(edges)), b, id)
  }

  ghost predicate EndsRun(nodes: seq<Node>, edges: seq<Edge>, id: Id) {
    || (exists n :: n in nodes && n.id == id && (IsTerminalOpcode(n.op) || n.op == Loop))
    || InLoopBody(nodes, edges, id)
  }

  ghost predicate TerminalAhead(nodes: seq<Node>, edges: seq<Edge>, id: Id) {
    exists t :: EndsRun(nodes, edges, t) && Reaches(Arcs(edges), id, t)
  }

  ghost predicate EdgeProblem(n: Node, out: seq<Edge>, p: Problem) {
    match n.op
    case Decide => BranchProblem(out, p)
    case Switch => BranchProblem(out, p)
    case Loop => p == NoLoopBody && out == []
    case Parallel =>
      || (p == NoParallelBranch && out == [])
      || (exists e :: e in out && e.condition.Some? && p == ParallelCondition(e.to))
    case _ => exists e :: e in out && e.condition.Some? && p == ConditionOn(e.to, e.kind)
  }

  ghost predicate BranchProblem(out: seq<Edge>, p: Problem) {
    match p
    case FewBranches => |out| < 2
    case MissingTrue => forall e :: e in out ==> e.condition != Some("true")
    case MissingFalse => forall e :: e in out ==> e.condition != Some("false")
    case Unconditional(to) => exists e :: e in out && e.to == to && e.condition.None?
    case _ => false
  }

  /** Problems of ids and edge ends; any of them stops the validation. */
  ghost predicate ReferenceFlaw(nodes: seq<Node>, edges: seq<Edge>, x: ValidationError) {
    match x
    case ValidationError(Some(id), DuplicateId) =>
      exists i, j :: 0 <= i < j < |nodes| && nodes[i].id == id && nodes[j].id == id
    case ValidationError(Some(id), UnknownSource) => id !in Ids(nodes) && exists e :: e in edges && e.from == id
    case ValidationError(Some(id), UnknownTarget) => id !in Ids(nodes) && exists e :: e in edges && e.to == id
    case _ => false
  }

  ghost predicate PlanFlaw(nodes: seq<Node>, edges: seq<Edge>, p: Problem) {
    match p
    case NoNodes => nodes == []
    case HasCycle => !Acyclic(Arcs(NonLoopEdges(edges, LoopIds(nodes))))
    case NoTerminals => forall n :: n in nodes ==> !IsTerminalOpcode(n.op)
    case _ => false
  }

  ghost predicate NodeFlaw(nodes: seq<Node>, edges: seq<Edge>, n: Node, p: Problem) {
    || (p == Unreachable && !FromRoot(nodes, edges, n.id))
    || (p == NoTerminalAhead && !IsTerminalOpcode(n.op) && !InLoopBody(nodes, edges, n.id)
        && EdgesFrom(edges, n.id) != [] && !TerminalAhead(nodes, edges, n.id))
    || (p.MissingArg? && p.key in RequiredArgs(n.op) && p.key !in n.args)
    || EdgeProblem(n, EdgesFrom(edges, n.id), p)
  }

  /** The flaws that are looked for once ids and edge ends are in order. */
  ghost predicate GraphFlaw(nodes: seq<Node>, edges: seq<Edge>, x: ValidationError) {
    match x.node
    case None => PlanFlaw(nodes, edges, x.problem)
    case Some(id) => exists n :: n in nodes && n.id == id && NodeFlaw(nodes, edges, n, x.problem)
  }

  ghost predicate ValidPlan(nodes: seq<Node>, edges: seq<Edge>) {
    WellReferenced(nodes, edges) && forall x :: !GraphFlaw(nodes, edges, x)
  }

  lemma WellReferencedIffNoFlaw(nodes: seq<Node>, edges: seq<Edge>)
    ensures WellReferenced(nodes, edges) <==> forall x :: !ReferenceFlaw(nodes, edges, x)
  {
    if forall x :: !ReferenceFlaw(nodes, edges, x) {
      forall i, j | 0 <= i < j < |nodes|
        ensures nodes[i].id != nodes[j].id
      {
        assert !ReferenceFlaw(nodes, edges, ValidationError(Some(nodes[i].id), DuplicateId));
      }
      forall e | e in edges
        ensures e.from in Ids(nodes) && e.to in Ids(nodes)
      {
        assert !ReferenceFlaw(nodes, edges, ValidationError(Some(e.from), UnknownSource));
        assert !ReferenceFlaw(nodes, edges, ValidationError(Some(e.to), UnknownTarget));
      }
    }
  }

  // ── Breadth-first search ────────────────────────────────────────

  ghost predicate ReachedFrom(edges: seq<Edge>, starts: seq<Id>, id: Id) {
    exists s :: s in starts && Reaches(Arcs(edges), s, id)
  }

  /** Adds all that the starts reach. The visited set may be shared between calls: what it
      holds already must be closed, and then skipping it loses nothing. */
  method Collect(starts: seq<Id>, edges: seq<Edge>, visited0: set<Id>) returns (visited: set<Id>)
    requires Closed(Arcs(edges), visited0)
    ensures Closed(Arcs(edges), visited)
    ensures forall id :: id in visited <==> id in visited0 || ReachedFrom(edges, starts, id)
  {
    visited := visited0;
    var queue := starts;
    ghost var all := visited0 + (set s | s in starts) + (set e | e in edges :: e.to);
    forall s | s in starts {
      ReachesSelf(Arcs(edges), s);
    }
    while queue != []
      invariant visited0 <= visited <= all && forall id :: id in queue ==> id in all
      invariant forall id :: id in starts ==> id in visited || id in queue
      invariant forall id :: id in visited || id in queue ==> id in visited0 || ReachedFrom(edges, starts, id)
      invariant forall u, v :: (u, v) in Arcs(edges) && u in visited ==> v in visited || v in queue
      decreases all - visited, |queue|
    {
      var id := queue[0];
      ghost var queue0 := queue;
      queue := queue[1..];
      assert forall q :: q in queue0 <==> q == id || q in queue;
      if id !in visited {
        visited := visited + {id};
        ghost var queue1 := queue;
        var out := EdgesFrom(edges, id);
        for i := 0 to |out|
          invariant forall q :: q in queue <==> q in queue1 || exists k :: 0 <= k < i && out[k].to == q
        {
          queue := queue + [out[i].to];
        }
        SuccessorsReached(edges, starts, visited0, id);
        assert forall q :: q in queue <==> q in queue1 || (id, q) in Arcs(edges);
      }
    }
    forall id | ReachedFrom(edges, starts, id)
      ensures id in visited
    {
      var s :| s in starts && Reaches(Arcs(edges), s, id);
      ClosedReaches(Arcs(edges), visited, s, id);
    }
  }

  lemma SuccessorsReached(edges: seq<Edge>, starts: seq<Id>, visited0: set<Id>, id: Id)
    requires Closed(Arcs(edges), visited0)
    requires id in visited0 || ReachedFrom(edges, starts, id)
    ensures forall v :: (id, v) in Arcs(edges) ==> v in visited0 || ReachedFrom(edges, starts, v)
  {
    forall v | (id, v) in Arcs(edges) && id !in visited0
      ensures ReachedFrom(edges, starts, v)
    {
      var s :| s in starts && Reaches(Arcs(edges), s, id);
      ReachesStep(Arcs(edges), s, id, v);
    }
  }

  method CanReachAny(start: Id, edges: seq<Edge>, targets: set<Id>) returns (found: bool)
    ensures found <==> exists t :: t in targets && Reaches(Arcs(edges), start, t)
  {
    var visited: set<Id> := {};
    var queue := [start];
    ghost var all := {start} + (set e | e in edges :: e.to);
    ReachesSelf(Arcs(edges), start);
    while queue != []
      invariant visited <= all && visited !! targets && forall id :: id in queue ==> id in all
      invariant start in visited || start in queue
      invariant forall id :: id in queue ==> Reaches(Arcs(edges), start, id)
      invariant forall u, v :: (u, v) in Arcs(edges) && u in visited ==> v in visited || v in queue
      decreases all - visited, |queue|
    {
      var id := queue[0];
      ghost var queue0 := queue;
      queue := queue[1..];
      assert forall q :: q in queue0 <==> q == id || q in queue;
      if id !in visited {
        if id in targets {
          return true;
        }
        visited := visited + {id};
        ghost var queue1 := queue;
        var out := EdgesFrom(edges, id);
        for i := 0 to |out|
          invariant forall q :: q in queue <==> q in queue1 || exists k :: 0 <= k < i && out[k].to == q
        {
          queue := queue + [out[i].to];
        }
        assert forall q :: q in queue <==> q in queue1 || (id, q) in Arcs(edges);
        forall v | (id, v) in Arcs(edges) {
          ReachesStep(Arcs(edges), start, id, v);
        }
      }
    }
    forall t | Reaches(Arcs(edges), start, t)
      ensures t !in targets
    {
      ClosedReaches(Arcs(edges), visited, start, t);
    }
    return false;
  }

  // ── The checks ──────────────────────────────────────────────────

  method CheckReferences(nodes: seq<Node>, edges: seq<Edge>) returns (errors: seq<ValidationError>)
    ensures forall x :: x in errors <==> ReferenceFlaw(nodes, edges, x)
  {
    errors := [];
    var seen: set<Id> := {};
    for i := 0 to |nodes|
      invariant seen == Ids(nodes[..i])
      invariant forall x :: x in errors <==> exists id :: x == ValidationError(Some(id), DuplicateId) && TwiceIn(nodes[..i], id)
    {
      var id := nodes[i].id;
      TwiceNext(nodes, i);
      assert nodes[..i + 1] == nodes[..i] + [nodes[i]];
      if id in seen {
        errors := errors + [ValidationError(Some(id), DuplicateId)];
      }
      seen := seen + {id};
    }
    assert nodes[..|nodes|] == nodes;
    var duplicates := errors;
    for i := 0 to |edges|
      invariant forall x :: x in errors <==> x in duplicates || DanglingAt(nodes, edges[..i], x)
    {
      var e := edges[i];
      assert edges[..i + 1] == edges[..i] + [e];
      if e.from !in Ids(nodes) {
        errors := errors + [ValidationError(Some(e.from), UnknownSource)];
      }
      if e.to !in Ids(nodes) {
        errors := errors + [ValidationError(Some(e.to), UnknownTarget)];
      }
    }
    assert edges[..|edges|] == edges;
  }

  ghost predicate TwiceIn(nodes: seq<Node>, id: Id) {
    exists i, j :: 0 <= i < j < |nodes| && nodes[i].id == id && nodes[j].id == id
  }

  lemma TwiceNext(nodes: seq<Node>, i: nat)
    requires i < |nodes|
    ensures forall id :: TwiceIn(nodes[..i + 1], id) <==> TwiceIn(nodes[..i], id) || (id == nodes[i].id && id in Ids(nodes[..i]))
  {
    var a, b := nodes[..i], nodes[..i + 1];
    forall id
      ensures TwiceIn(b, id) <==> TwiceIn(a, id) || (id == nodes[i].id && id in Ids(a))
    {
      if TwiceIn(a, id) {
        var k, j :| 0 <= k < j < |a| && a[k].id == id && a[j].id == id;
        assert b[k].id == id && b[j].id == id;
      }
      if id == nodes[i].id && id in Ids(a) {
        var k :| 0 <= k < |a| && a[k].id == id;
        assert b[k].id == id && b[i].id == id;
      }
      if TwiceIn(b, id) {
        var k, j :| 0 <= k < j < |b| && b[k].id == id && b[j].id == id;
        assert a[k].id == id;
        if j < i {
          assert a[j].id == id;
        }
      }
    }
  }

  ghost predicate DanglingAt(nodes: seq<Node>, edges: seq<Edge>, x: ValidationError) {
    x.node.Some? && x.node.value !in Ids(nodes)
    && ((x.problem == UnknownSource && exists e :: e in edges && e.from == x.node.value)
        || (x.problem == UnknownTarget && exists e :: e in edges && e.to == x.node.value))
  }

  /** The ids in the body of some LOOP, with one visited set for all of them. */
  method LoopBodies(nodes: seq<Node>, edges: seq<Edge>) returns (bodies: set<Id>)
    ensures forall id :: id in bodies <==> InLoopBody(nodes, edges, id)
  {
    var data := DataEdges(edges);
    bodies := {};
    ghost var starts: seq<Id> := [];
    for i := 0 to |edges|
      invariant forall b :: b in starts <==> StartsBody(nodes, edges[..i], b)
      invariant Closed(Arcs(data), bodies)
      invariant forall id :: id in bodies <==> ReachedFrom(data, starts, id)
    {
      var e := edges[i];
      assert edges[..i + 1] == edges[..i] + [e];
      if e.from in LoopIds(nodes) && e.condition.None? && e.kind == Data {
        bodies := Collect([e.to], data, bodies);
        starts := starts + [e.to];
      }
    }
    assert edges[..|edges|] == edges;
  }

  method EdgeErrors(n: Node, out: seq<Edge>) returns (errors: seq<Problem>)
    ensures forall p :: p in errors <==> EdgeProblem(n, out, p)
  {
    hide BranchProblem;
    errors := [];
    match n.op {
      case Decide => errors := BranchErrors(out);
      case Switch => errors := BranchErrors(out);
      case Loop =>
        if out == [] {
          errors := [NoLoopBody];
        }
      case Parallel =>
        if out == [] {
          errors := [NoParallelBranch];
        }
        var before := errors;
        for i := 0 to |out|
          invariant forall p :: p in errors <==>
            p in before || exists e :: e in out[..i] && e.condition.Some? && p == ParallelCondition(e.to)
        {
          assert out[..i + 1] == out[..i] + [out[i]];
          if out[i].condition.Some? {
            errors := errors + [ParallelCondition(out[i].to)];
          }
        }
        assert out[..|out|] == out;
      case _ =>
        for i := 0 to |out|
          invariant forall p :: p in errors <==> exists e :: e in out[..i] && e.condition.Some? && p == ConditionOn(e.to, e.kind)
        {
          assert out[..i + 1] == out[..i] + [out[i]];
          if out[i].condition.Some? {
            errors := errors + [ConditionOn(out[i].to, out[i].kind)];
          }
        }
        assert out[..|out|] == out;
    }
  }

  method BranchErrors(out: seq<Edge>) returns (errors: seq<Problem>)
    ensures forall p :: p in errors <==> BranchProblem(out, p)
  {
    errors := if |out| < 2 then [FewBranches] else [];
    if forall e | e in out :: e.condition != Some("true") {
      errors := errors + [MissingTrue];
    }
    if forall e | e in out :: e.condition != Some("false") {
      errors := errors + [MissingFalse];
    }
    var before := errors;
    for i := 0 to |out|
      invariant forall p :: p in errors <==> p in before || exists e :: e in out[..i] && e.condition.None? && p == Unconditional(e.to)
    {
      assert out[..i + 1] == out[..i] + [out[i]];
      if out[i].condition.None? {
        errors := errors + [Unconditional(out[i].to)];
      }
    }
    assert out[..|out|] == out;
  }

  method ArgErrors(n: Node) returns (errors: seq<Problem>)
    ensures forall p :: p in errors <==> p.MissingArg? && p.key in RequiredArgs(n.op) && p.key !in n.args
  {
    errors := [];
    var keys := RequiredArgs(n.op);
    while keys != {}
      invariant keys <= RequiredArgs(n.op)
      invariant forall p :: p in errors <==> p.MissingArg? && p.key in RequiredArgs(n.op) - keys && p.key !in n.args
      decreases |keys|
    {
      var k :| k in keys;
      if k !in n.args {
        errors := errors + [MissingArg(k)];
      }
      keys := keys - {k};
    }
  }

  /** All that is reported about one node. */
  method NodeErrors(nodes: seq<Node>, edges: seq<Edge>, n: Node, reachable: set<Id>, bodies: set<Id>, ends: set<Id>)
    returns (errors: seq<Problem>)
    requires forall id :: id in reachable <==> FromRoot(nodes, edges, id)
    requires forall id :: id in bodies <==> InLoopBody(nodes, edges, id)
    requires forall id :: id in ends <==> EndsRun(nodes, edges, id)
    ensures forall p :: p in errors <==> NodeFlaw(nodes, edges, n, p)
  {
    var out := EdgesFrom(edges, n.id);
    var args := ArgErrors(n);
    var edgeErrors := EdgeErrors(n, out);
    errors := args + edgeErrors;
    if n.id !in reachable {
      errors := [Unreachable] + errors;
    }
    if !IsTerminalOpcode(n.op) && n.id !in bodies && out != [] {
      var found := CanReachAny(n.id, edges, ends);
      if !found {
        errors := [NoTerminalAhead] + errors;
      }
    }
  }

  method RootIds(nodes: seq<Node>, edges: seq<Edge>) returns (roots: seq<Id>)
    ensures forall id :: id in roots <==> id in Ids(nodes) && !HasIncoming(edges, id)
  {
    roots := [];
    for i := 0 to |nodes|
      invariant forall id :: id in roots <==> id in Ids(nodes[..i]) && !HasIncoming(edges, id)
    {
      assert nodes[..i + 1] == nodes[..i] + [nodes[i]];
      if !HasIncoming(edges, nodes[i].id) {
        roots := roots + [nodes[i].id];
      }
    }
    assert nodes[..|nodes|] == nodes;
  }

  method PlanErrors(nodes: seq<Node>, edges: seq<Edge>) returns (errors: seq<Problem>)
    requires WellReferenced(nodes, edges)
    ensures forall p :: p in errors <==> PlanFlaw(nodes, edges, p)
  {
    errors := if nodes == [] then [NoNodes] else [];
    var acyclic := NonLoopEdges(edges, LoopIds(nodes));
    var order := TopologicalOrder(nodes, acyclic);
    SortableWithoutDangling(nodes, acyclic);
    if order.Err? {
      errors := errors + [HasCycle];
    }
    if forall n | n in nodes :: !IsTerminalOpcode(n.op) {
      errors := errors + [NoTerminals];
    }
  }

  ghost predicate FlawAmong(some: seq<Node>, nodes: seq<Node>, edges: seq<Edge>, x: ValidationError) {
    x.node.Some? && exists n :: n in some && n.id == x.node.value && NodeFlaw(nodes, edges, n, x.problem)
  }

  function About(id: Id, problems: seq<Problem>): (r: seq<ValidationError>)
    ensures forall x :: x in r <==> x.node == Some(id) && x.problem in problems
  {
    if problems == [] then [] else [ValidationError(Some(id), problems[0])] + About(id, problems[1..])
  }

  /** Complete and sound: it reports every flaw of the phase it reaches, and nothing else. */
  method Validate(nodes: seq<Node>, edges: seq<Edge>) returns (errors: seq<ValidationError>)
    ensures !WellReferenced(nodes, edges) ==> forall x :: x in errors <==> ReferenceFlaw(nodes, edges, x)
    ensures WellReferenced(nodes, edges) ==> forall x :: x in errors <==> GraphFlaw(nodes, edges, x)
    ensures errors == [] <==> ValidPlan(nodes, edges)
  {
    hide ReferenceFlaw, PlanFlaw, NodeFlaw, WellReferenced;
    errors := CheckReferences(nodes, edges);
    WellReferencedIffNoFlaw(nodes, edges);
    if errors != [] {
      assert errors[0] in errors;
      return;
    }
    var planErrors := PlanErrors(nodes, edges);
    for i := 0 to |planErrors|
      invariant forall x :: x in errors <==> x.node.None? && x.problem in planErrors[..i]
    {
      assert planErrors[..i + 1] == planErrors[..i] + [planErrors[i]];
      errors := errors + [ValidationError(None, planErrors[i])];
    }
    assert planErrors[..|planErrors|] == planErrors;
    var roots := RootIds(nodes, edges);
    var reachable := Collect(roots, edges, {});
    var bodies := LoopBodies(nodes, edges);
    var ends := (set n | n in nodes && (IsTerminalOpcode(n.op) || n.op == Loop) :: n.id) + bodies;
    ghost var before := errors;
    for i := 0 to |nodes|
      invariant forall x :: x in errors <==> x in before || FlawAmong(nodes[..i], nodes, edges, x)
    {
      assert nodes[..i + 1] == nodes[..i] + [nodes[i]];
      var nodeErrors := NodeErrors(nodes, edges, nodes[i], reachable, bodies, ends);
      errors := errors + About(nodes[i].id, nodeErrors);
    }
    assert nodes[..|nodes|] == nodes;
    assert forall x :: x in errors <==> GraphFlaw(nodes, edges, x);
    if errors != [] {
      assert errors[0] in errors;
    }
  }

  // ── What a valid plan is good for ───────────────────────────────

  /** Every cycle of a valid plan goes through an edge into a LOOP. */
  lemma CyclesEnterLoops(nodes: seq<Node>, edges: seq<Edge>, p: seq<Id>)
    requires ValidPlan(nodes, edges) && Cycle(Arcs(edges), p)
    ensures exists i :: 0 < i < |p| && p[i] in LoopIds(nodes)
  {
    assert !GraphFlaw(nodes, edges, ValidationError(None, HasCycle));
    if forall i :: 0 < i < |p| ==> p[i] !in LoopIds(nodes) {
      CycleAvoidingLoops(nodes, edges, p);
    }
  }

  lemma ValidIsWellReferenced(nodes: seq<Node>, edges: seq<Edge>)
    requires ValidPlan(nodes, edges)
    ensures WellReferenced(nodes, edges)
  {
  }

  lemma CycleAvoidingLoops(nodes: seq<Node>, edges: seq<Edge>, p: seq<Id>)
    requires Cycle(Arcs(edges), p) && forall i :: 0 < i < |p| ==> p[i] !in LoopIds(nodes)
    ensures Cycle(Arcs(NonLoopEdges(edges, LoopIds(nodes))), p)
  {
    forall i | 0 <= i < |p| - 1
      ensures (p[i], p[i + 1]) in Arcs(NonLoopEdges(edges, LoopIds(nodes)))
    {
      assert (p[i], p[i + 1]) in Arcs(edges);
      var e :| e in edges && (e.from, e.to) == (p[i], p[i + 1]);
      assert e in NonLoopEdges(edges, LoopIds(nodes));
    }
  }

  lemma ValidNodesComeFromRoots(nodes: seq<Node>, edges: seq<Edge>, n: Node)
    requires ValidPlan(nodes, edges) && n in nodes
    ensures FromRoot(nodes, edges, n.id)
  {
    assert !GraphFlaw(nodes, edges, ValidationError(Some(n.id), Unreachable));
    assert !NodeFlaw(nodes, edges, n, Unreachable);
  }

  /** From every node that is not dead code a run can get to its end. */
  lemma ValidNodesCanEnd(nodes: seq<Node>, edges: seq<Edge>, n: Node)
    requires ValidPlan(nodes, edges) && n in nodes && EdgesFrom(edges, n.id) != []
    ensures TerminalAhead(nodes, edges, n.id)
  {
    assert !GraphFlaw(nodes, edges, ValidationError(Some(n.id), NoTerminalAhead));
    assert !NodeFlaw(nodes, edges, n, NoTerminalAhead);
    ReachesSelf(Arcs(edges), n.id);
    if IsTerminalOpcode(n.op) || InLoopBody(nodes, edges, n.id) {
      assert EndsRun(nodes, edges, n.id);
    }
  }

  /** On a plan without any cycle the reachability check never fires. */
  lemma AcyclicIsReachable(nodes: seq<Node>, edges: seq<Edge>, n: Node)
    requires WellReferenced(nodes, edges) && Acyclic(Arcs(edges)) && n in nodes
    ensures FromRoot(nodes, edges, n.id)
  {
    var arcs := Arcs(edges);
    var above := set id | id in Ids(nodes) && Reaches(arcs, id, n.id);
    ReachesSelf(arcs, n.id);
    assert n.id in above;
    var root := FindSource(arcs, above);
    if HasIncoming(edges, root) {
      var e :| e in edges && e.to == root;
      assert (e.from, root) in arcs;
      ReachesArc(arcs, e.from, root);
      ReachesTrans(arcs, e.from, root, n.id);
    }
  }
}
