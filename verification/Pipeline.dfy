/** What the stages of the compiler and the view promise together. */
module Pipeline {
  import opened Wrappers
  import opened Graphs
  import opened Plan
  import opened Ast
  import opened TransformSpec
  import opened TransformTrace
  import opened TransformFollows
  import opened TransformLeaks
  import opened TransformOrder
  import V = Validator
  import C = Compiled
  import PlanView

  // ── From the transform to the validator ─────────────────────────

  /** Ids are distinct in every accepted program; without `pass`, empty GROUPs and faults no edge
      dangles either, so that the validator goes on to the graph. */
  lemma ReferencesInOrder(m: seq<TopLevel>, x: V.ValidationError)
    requires ModuleStep(m).Ok?
    ensures var st := ModuleStep(m).value;
      && (V.ReferenceFlaw(st.nodes, st.edges, x) ==> x.problem != V.DuplicateId)
      && (FaultFree(m) && NameableModule(m) ==> !V.ReferenceFlaw(st.nodes, st.edges, x))
  {
    hide NameableModule, ModuleStep, FaultFree, Sortable;
    var st := ModuleStep(m).value;
    CompilesToDag(m);
    if FaultFree(m) && NameableModule(m) {
      CompilesToSortable(m);
      V.WellReferencedIffNoFlaw(st.nodes, st.edges);
    }
  }

  /** Of all the flaws in the graph, the plan of an accepted program never has a cycle nor, with its
      references in order, an unreachable node; and an argument is missing exactly if a `match` is
      walked: the condition of its SWITCH. */
  lemma OnlyNodeFlaws(m: seq<TopLevel>)
    requires ModuleStep(m).Ok?
    ensures var st := ModuleStep(m).value;
      && (forall x :: V.GraphFlaw(st.nodes, st.edges, x) ==>
            && x.problem != V.HasCycle
            && (WellReferenced(st.nodes, st.edges) ==> x.problem != V.Unreachable)
            && (x.problem.MissingArg? ==> x.problem.key == "condition"))
      && (WalksMatch(m) <==> exists x :: V.GraphFlaw(st.nodes, st.edges, x) && x.problem.MissingArg?)
  {
    hide ModuleStep, WalksMatch;
    var st := ModuleStep(m).value;
    SwitchIff(m);
    forall x | V.GraphFlaw(st.nodes, st.edges, x)
      ensures x.problem != V.HasCycle && (WellReferenced(st.nodes, st.edges) ==> x.problem != V.Unreachable)
      ensures x.problem.MissingArg? ==> x.problem.key == "condition" && BareSwitch(st.nodes)
    {
      OneNodeFlaw(m, x);
    }
    if BareSwitch(st.nodes) {
      var n :| n in st.nodes && n.op == Switch && "condition" !in n.args;
      MissingCondition(st.nodes, st.edges, n);
    }
  }

  lemma OneNodeFlaw(m: seq<TopLevel>, x: V.ValidationError)
    requires ModuleStep(m).Ok? && V.GraphFlaw(ModuleStep(m).value.nodes, ModuleStep(m).value.edges, x)
    ensures var st := ModuleStep(m).value;
      && x.problem != V.HasCycle
      && (WellReferenced(st.nodes, st.edges) ==> x.problem != V.Unreachable)
      && (x.problem.MissingArg? ==> x.problem.key == "condition" && BareSwitch(st.nodes))
  {
    hide WellReferenced, Sortable, ModuleStep;
    var st := ModuleStep(m).value;
    CompilesToDag(m);
    AcyclicSubset(Arcs(V.NonLoopEdges(st.edges, V.LoopIds(st.nodes))), Arcs(st.edges));
    ArgumentsAreComplete(m);
    if x.node.Some? {
      var n :| n in st.nodes && n.id == x.node.value && V.NodeFlaw(st.nodes, st.edges, n, x.problem);
      if WellReferenced(st.nodes, st.edges) {
        V.AcyclicIsReachable(st.nodes, st.edges, n);
      }
      if x.problem.MissingArg? {
        MissingOnSwitch(st.nodes, st.edges, n, x.problem);
      }
    }
  }

  lemma ArgumentsAreComplete(m: seq<TopLevel>)
    requires ModuleStep(m).Ok?
    ensures AllComplete(ModuleStep(m).value.nodes)
  {
    assert Extends(Initial, ModuleStep(m).value);
  }

  lemma MissingOnSwitch(nodes: seq<Node>, edges: seq<Edge>, n: Node, p: V.Problem)
    requires AllComplete(nodes) && n in nodes && V.NodeFlaw(nodes, edges, n, p) && p.MissingArg?
    ensures p.key == "condition" && BareSwitch(nodes)
  {
    assert Complete(n.op, n.args);
  }

  lemma MissingCondition(nodes: seq<Node>, edges: seq<Edge>, n: Node)
    requires n in nodes && n.op == Switch && "condition" !in n.args
    ensures V.GraphFlaw(nodes, edges, V.ValidationError(Some(n.id), V.MissingArg("condition")))
  {
    assert V.NodeFlaw(nodes, edges, n, V.MissingArg("condition"));
  }

  // ── Statements keep the edge rules of their own nodes ───────────

  /** The DECIDE of an `if` always has an edge for true and one for false, in every continuation
      of the program: with a body that may or may not return, and with or without an `else`. */
  lemma IfIsGated(st: State, s: Stmt, final: State)
    requires s.If? && s.body != [] && IfStep(st, s).Done? && Extends(IfStep(st, s).st, final)
    ensures !NoBranches(EdgesFrom(final.edges, IfStep(st, s).first))
  {
    IfGates(st, s);
    var r := IfStep(st, s);
    var yes :| yes in r.st.edges && yes.from == r.first && yes.condition == Some("true");
    var no :| no in r.st.edges && no.from == r.first && no.condition == Some("false");
    StaysAnEdge(yes, r.st, final);
    StaysAnEdge(no, r.st, final);
    TwoBranches(EdgesFrom(final.edges, r.first), yes, no);
  }

  /** The validator misses a branch of a DECIDE. */
  ghost predicate NoBranches(out: seq<Edge>) {
    V.BranchProblem(out, V.FewBranches) || V.BranchProblem(out, V.MissingTrue) || V.BranchProblem(out, V.MissingFalse)
  }

  lemma TwoBranches(out: seq<Edge>, yes: Edge, no: Edge)
    requires yes in out && no in out && yes.condition == Some("true") && no.condition == Some("false")
    ensures !NoBranches(out)
  {
    var i :| 0 <= i < |out| && out[i] == yes;
    var j :| 0 <= j < |out| && out[j] == no;
    assert i != j;
  }

  /** A LOOP has an edge into its body. */
  lemma LoopHasBody(st: State, s: Stmt, final: State)
    requires s.For? && s.target.Name? && s.body != [] && ForStep(st, s).Done? && Extends(ForStep(st, s).st, final)
    ensures EdgesFrom(final.edges, ForStep(st, s).first) != []
  {
    hide Extends;
    var (s2, loop) := TransformSpec.FedBy(st, s.iter, Loop, ["target", "max_iterations"]);
    var s3 := Bind(s2, s.target.id, loop);
    BodyHasEnds(s3, s.body, ByControl, NoTrail);
    var e := NewEdge(loop, Body(s3, s.body, ByControl, NoTrail).trail.first.value, None, Data);
    assert e in ForStep(st, s).st.edges;
    StaysAnEdge(e, ForStep(st, s).st, final);
    assert e in EdgesFrom(final.edges, loop);
  }

  /** A PARALLEL has an edge to its first branch. */
  lemma ParallelHasBody(st: State, s: Stmt, final: State)
    requires s.With? && s.item.ParallelItem? && s.body != [] && WithStep(st, s).Done? && Extends(WithStep(st, s).st, final)
    ensures EdgesFrom(final.edges, WithStep(st, s).first) != []
  {
    hide Extends;
    var (s1, par) := Push(st, Parallel, []);
    var e := ParallelHasBranch(s1, s.body, 0, par);
    StaysAnEdge(e, WithStep(st, s).st, final);
    assert e in EdgesFrom(final.edges, par);
  }

  /** In the plan of every accepted program each LOOP and PARALLEL has a body; and each DECIDE has both its
      branches if and only if no `assert` is walked. */
  lemma BranchRules(m: seq<TopLevel>)
    requires ModuleStep(m).Ok? && FullBodies(m)
    ensures var st := ModuleStep(m).value;
      && (forall n :: n in st.nodes && n.op in {Loop, Parallel} ==> EdgesFrom(st.edges, n.id) != [])
      && (WalksAssert(m) <==> exists n :: n in st.nodes && n.op == Decide && NoBranches(EdgesFrom(st.edges, n.id)))
  {
    hide ModuleStep, WalksAssert, FullBodies, ModuleTrace;
    var st := ModuleStep(m).value;
    BranchesAreThere(m);
    forall n | n in st.nodes
      ensures n.op in {Loop, Parallel} ==> EdgesFrom(st.edges, n.id) != []
      ensures n.op == Decide && !WalksAssert(m) ==> !NoBranches(EdgesFrom(st.edges, n.id))
    {
      RuledNode(m, n);
    }
    if WalksAssert(m) {
      var n :| n in st.nodes && n.op == Decide && Ungated(st.edges, 0, n.id);
      NoTrueBranch(st.edges, n.id);
    }
  }

  lemma RuledNode(m: seq<TopLevel>, n: Node)
    requires ModuleStep(m).Ok? && FullBodies(m) && Ruled(n, ModuleStep(m).value.edges, ModuleTrace(m))
    ensures n.op in {Loop, Parallel} ==> EdgesFrom(ModuleStep(m).value.edges, n.id) != []
    ensures n.op == Decide && !WalksAssert(m) ==> !NoBranches(EdgesFrom(ModuleStep(m).value.edges, n.id))
  {
    hide ModuleStep, ModuleTrace;
    var edges := ModuleStep(m).value.edges;
    var out := EdgesFrom(edges, n.id);
    if n.op in {Loop, Parallel} {
      var e :| e in edges && e.from == n.id;
      assert e in out;
    }
    if n.op == Decide && !WalksAssert(m) {
      var yes :| yes in edges && yes.from == n.id && yes.condition == Some("true");
      var no :| no in edges && no.from == n.id && no.condition == Some("false");
      TwoBranches(out, yes, no);
    }
  }

  lemma NoTrueBranch(edges: seq<Edge>, id: Id)
    requires Ungated(edges, 0, id)
    ensures V.BranchProblem(EdgesFrom(edges, id), V.MissingTrue)
  {
  }

  /** The validator finds an edge without a condition at a DECIDE if and only if the syntax has one leak:
      a branch that ends in an `if` that always returns, without always returning itself, or a chain
      that goes on behind a DECIDE. */
  lemma UnconditionalIff(m: seq<TopLevel>)
    requires ModuleStep(m).Ok?
    ensures var st := ModuleStep(m).value;
      BodyLeaks(ByControl, Start, GraphBody(m)) <==>
      exists n, to :: n in st.nodes && n.op == Decide && V.BranchProblem(EdgesFrom(st.edges, n.id), V.Unconditional(to))
  {
    hide ModuleStep, BodyLeaks;
    LeaksIff(m);
    var st := ModuleStep(m).value;
    if n, e :| n in st.nodes && n.op == Decide && e in st.edges && e.from == n.id && e.condition.None? {
      assert e in EdgesFrom(st.edges, n.id);
      assert V.BranchProblem(EdgesFrom(st.edges, n.id), V.Unconditional(e.to));
    }
    if n, to :| n in st.nodes && n.op == Decide && V.BranchProblem(EdgesFrom(st.edges, n.id), V.Unconditional(to)) {
      var e :| e in EdgesFrom(st.edges, n.id) && e.to == to && e.condition.None?;
      assert e in st.edges;
    }
  }

  /** For one, a body that computes something before an `if` that returns on both sides. */
  lemma MixedBodyLeaks()
    ensures var s := If(Leaf, [ExprStmt(Leaf), If(Leaf, [Return(None)], [Return(None)])], []);
      var m := [FunctionDef("graph", [], [], [s])];
      ModuleStep(m).Ok? && ModuleStep(m).value.faults == [] && BodyLeaks(ByControl, Start, GraphBody(m))
  {
    hide ModuleStep, Play, BodyTrace, StmtTrace;
    var r, x := Return(None), ExprStmt(Leaf);
    var s := If(Leaf, [x, If(Leaf, [r], [r])], []);
    OnlyGraph([s]);
    ShortBodies(s, s);
    MixedTrace(r, x);
    FaultFreeIff([FunctionDef("graph", [], [], [s])]);
    MixedLeaks(r, x);
  }

  lemma MixedTrace(r: Stmt, x: Stmt)
    requires r == Return(None) && x == ExprStmt(Leaf)
    ensures NoRecord(StmtTrace(If(Leaf, [x, If(Leaf, [r], [r])], [])))
  {
    hide BodyTrace;
    ShortBodies(r, r);
    ShortBodies(x, If(Leaf, [r], [r]));
    IfTrace([r], [r]);
    IfTrace([x, If(Leaf, [r], [r])], []);
    NoTrace();
    assert StmtTrace(x) == [Enter] && StmtTrace(r) == [Enter];
  }

  lemma NoTrace()
    ensures BodyTrace([]) == []
  {
  }

  lemma IfTrace(body: seq<Stmt>, orelse: seq<Stmt>)
    requires body != []
    ensures StmtTrace(If(Leaf, body, orelse)) == [Enter] + (BodyTrace(body) + BodyTrace(orelse))
  {
    hide BodyTrace;
  }

  lemma MixedLeaks(r: Stmt, x: Stmt)
    requires r == Return(None) && x == ExprStmt(Leaf)
    ensures BodyLeaks(ByControl, Start, [If(Leaf, [x, If(Leaf, [r], [r])], [])])
  {
    var inner := If(Leaf, [r], [r]);
    var body := [x, inner];
    assert IsTerminal(r) && AllTerminal([r]) && EndsAtDecide(inner) && body[1] == inner;
    assert !IsTerminal(x) && body[0] == x && !AllTerminal(body) && EndAtDecide(body);
    assert Leaks(If(Leaf, body, []));
  }

  // ── Statements that never pass ──────────────────────────────────

  /** A program that walks a `match` never compiles to a valid plan: its SWITCH has a `source` and
      no `condition`. */
  lemma MatchIsRejected(m: seq<TopLevel>)
    requires ModuleStep(m).Ok? && WalksMatch(m)
    ensures !V.ValidPlan(ModuleStep(m).value.nodes, ModuleStep(m).value.edges)
  {
    OnlyNodeFlaws(m);
  }

  /** A program that is written with a `match` walks it, unless a fault is recorded; and what is walked
      is written. */
  lemma WrittenAndWalked(m: seq<TopLevel>)
    ensures WalksMatch(m) ==> AnyMatch(GraphBody(m))
    ensures FaultFree(m) ==> (WalksMatch(m) <==> AnyMatch(GraphBody(m)))
  {
    BodyMatches(GraphBody(m));
  }

  /** A `match` behind the last fault is not walked, and then the plan can be valid: after `return`, a
      loop over two variables with a `match` in it. */
  lemma MatchCanBePassedOver()
    ensures var s := For(Compound([Leaf, Leaf]), Leaf, [Match(Leaf, [Case(Literal("1"), [Stmt.Pass])])]);
      var m := [FunctionDef("graph", [], [], [Return(None), s])];
      && ModuleStep(m).Ok? && ModuleStep(m).value.faults == [TargetNotName]
      && AnyMatch(GraphBody(m)) && !WalksMatch(m)
      && V.ValidPlan(ModuleStep(m).value.nodes, ModuleStep(m).value.edges)
  {
    hide ModuleStep, V.ValidPlan, AnyMatch, WalksMatch, Body;
    var inner := [Match(Leaf, [Case(Literal("1"), [Stmt.Pass])])];
    var s := For(Compound([Leaf, Leaf]), Leaf, inner);
    OnlyGraph([Return(None), s]);
    PassedOverTrace(s, inner);
    PassedOver(s, inner);
    TwoNodesAreValid();
  }

  lemma PassedOverTrace(s: Stmt, inner: seq<Stmt>)
    requires s == For(Compound([Leaf, Leaf]), Leaf, inner) && |inner| == 1 && inner[0].Match?
    ensures var m := [FunctionDef("graph", [], [], [Return(None), s])];
      && ModuleStep(m).Ok? && ModuleStep(m).value.faults == [TargetNotName]
      && AnyMatch(GraphBody(m)) && !WalksMatch(m)
  {
    hide ModuleStep, Play, BodyTrace, HasMatch, AnyMatch, WalkTrace;
    var body := [Return(None), s];
    var m := [FunctionDef("graph", [], [], body)];
    OnlyGraph(body);
    ShortBodies(Return(None), s);
    ReturnTrace();
    TupleLoopTrace(inner);
    assert BodyTrace(body) == [Enter, Enter, Record(TargetNotName)];
    AcceptedIff(m);
    ThreeRecords(TargetNotName);
    LoopHasMatch(s, inner);
  }

  lemma ReturnTrace()
    ensures StmtTrace(Return(None)) == [Enter]
  {
  }

  lemma TupleLoopTrace(inner: seq<Stmt>)
    ensures StmtTrace(For(Compound([Leaf, Leaf]), Leaf, inner)) == [Enter, Record(TargetNotName)]
  {
  }

  lemma LoopHasMatch(s: Stmt, inner: seq<Stmt>)
    requires s == For(Compound([Leaf, Leaf]), Leaf, inner) && |inner| == 1 && inner[0].Match?
    ensures AnyMatch([Return(None), s])
  {
    assert inner[0] in inner && HasMatch(inner[0]);
    assert [Return(None), s][1] == s && HasMatch(s);
  }

  lemma PassedOver(s: Stmt, inner: seq<Stmt>)
    requires s == For(Compound([Leaf, Leaf]), Leaf, inner)
    ensures var b := Body(Initial, [Return(None), s], ByControl, NoTrail);
      b.Walked? && b.st.edges == [] && b.st.nodes == [Node(0, Act, ["type"], None, None), Node(1, Calc, ["expr"], None, None)]
  {
    var body := [Return(None), s];
    assert body[1..] == [s] && [s][1..] == [];
    var s1 := Push(Initial, Act, ["type"]).0;
    var s2 := Push(s1, Calc, ["expr"]).0;
    assert StmtStep(Initial, Return(None)) == Done(s1, 0, 0);
    assert ToNode(s1, Leaf) == (s2, 1);
    var r := Fallback(s2, TargetNotName);
    assert StmtStep(s1, s) == r;
    var t := Advance(NoTrail, 0, 0, true);
    assert Body(r.st, [], ByControl, Advance(t, r.first, r.last, false)).st == r.st;
    assert Body(s1, [s], ByControl, t).st == r.st;
  }

  lemma ThreeRecords(f: Fault)
    ensures Records([Enter, Enter, Record(f)]) == [f] && FaultsLast([Enter, Enter, Record(f)])
  {
    var one: seq<Event> := [Record(f)];
    var two, three := [Enter] + one, [Enter, Enter] + one;
    var nothing: seq<Fault> := [];
    assert one[1..] == [] && Records(one) == [f] + nothing == [f];
    assert two[1..] == one && Records(two) == nothing + [f] == [f];
    assert three[1..] == two && Records(three) == nothing + [f] == [f];
    assert three == [Enter, Enter, Record(f)];
  }

  lemma TwoNodesAreValid()
    ensures V.ValidPlan([Node(0, Act, ["type"], None, None), Node(1, Calc, ["expr"], None, None)], [])
  {
    var nodes := [Node(0, Act, ["type"], None, None), Node(1, Calc, ["expr"], None, None)];
    var none: seq<Edge> := [];
    assert V.NonLoopEdges(none, V.LoopIds(nodes)) == [];
    forall n | n in nodes
      ensures forall p :: !V.NodeFlaw(nodes, none, n, p)
    {
      ReachesSelf(Arcs(none), n.id);
      assert V.FromRoot(nodes, none, n.id);
    }
    assert nodes[0] in nodes && V.IsTerminalOpcode(nodes[0].op);
    forall p
      ensures !V.PlanFlaw(nodes, none, p)
    {
      assert Acyclic(Arcs(none)) by {
        assert forall p: seq<Id> :: Cycle(Arcs(none), p) ==> (p[0], p[1]) in Arcs(none);
      }
    }
  }

  /** Nor does a program that walks an `assert`: its DECIDE gets no branches. */
  lemma AssertIsRejected(m: seq<TopLevel>)
    requires ModuleStep(m).Ok? && WalksAssert(m)
    ensures !V.ValidPlan(ModuleStep(m).value.nodes, ModuleStep(m).value.edges)
  {
    hide ModuleStep, WalksAssert;
    var st := ModuleStep(m).value;
    BranchesAreThere(m);
    var n :| n in st.nodes && n.op == Decide && Ungated(st.edges, 0, n.id);
    NoTrueBranch(st.edges, n.id);
    assert V.NodeFlaw(st.nodes, st.edges, n, V.MissingTrue);
    assert V.GraphFlaw(st.nodes, st.edges, V.ValidationError(Some(n.id), V.MissingTrue));
  }

  // ── The plans that pass ─────────────────────────────────────────

  /** Outside of loop bodies, whatever has a successor leads to an end. */
  ghost predicate RunsEnd(nodes: seq<Node>, edges: seq<Edge>) {
    forall n :: n in nodes && !V.IsTerminalOpcode(n.op) && !V.InLoopBody(nodes, edges, n.id) && EdgesFrom(edges, n.id) != [] ==>
      V.TerminalAhead(nodes, edges, n.id)
  }

  /** All the rules together: the plan of an accepted program is valid if and only if its references are
      in order, its runs come to an end, the program walks no `match` and no `assert`, and its
      syntax has no leak. */
  lemma ValidIff(m: seq<TopLevel>)
    requires ModuleStep(m).Ok? && FullBodies(m)
    ensures var st := ModuleStep(m).value;
      V.ValidPlan(st.nodes, st.edges) <==>
      && WellReferenced(st.nodes, st.edges)
      && (exists n :: n in st.nodes && V.IsTerminalOpcode(n.op)) && RunsEnd(st.nodes, st.edges)
      && !WalksMatch(m) && !WalksAssert(m) && !BodyLeaks(ByControl, Start, GraphBody(m))
  {
    hide ModuleStep, FullBodies, WalksMatch, WalksAssert, BodyLeaks, WellReferenced, RunsEnd, V.GraphFlaw, V.BranchProblem;
    var st := ModuleStep(m).value;
    if V.ValidPlan(st.nodes, st.edges) {
      ValidPasses(m);
    }
    if && WellReferenced(st.nodes, st.edges)
       && (exists n :: n in st.nodes && V.IsTerminalOpcode(n.op)) && RunsEnd(st.nodes, st.edges)
       && !WalksMatch(m) && !WalksAssert(m) && !BodyLeaks(ByControl, Start, GraphBody(m)) {
      forall x
        ensures !V.GraphFlaw(st.nodes, st.edges, x)
      {
        PassesFlawless(m, x);
      }
    }
  }

  lemma ValidPasses(m: seq<TopLevel>)
    requires ModuleStep(m).Ok? && V.ValidPlan(ModuleStep(m).value.nodes, ModuleStep(m).value.edges)
    ensures var st := ModuleStep(m).value;
      && (exists n :: n in st.nodes && V.IsTerminalOpcode(n.op)) && RunsEnd(st.nodes, st.edges)
      && !WalksMatch(m) && !WalksAssert(m) && !BodyLeaks(ByControl, Start, GraphBody(m))
  {
    hide ModuleStep, WalksMatch, WalksAssert, BodyLeaks, V.TerminalAhead, V.InLoopBody;
    var st := ModuleStep(m).value;
    if WalksMatch(m) {
      MatchIsRejected(m);
    }
    if WalksAssert(m) {
      AssertIsRejected(m);
    }
    UnconditionalIff(m);
    if n, to :| n in st.nodes && n.op == Decide && V.BranchProblem(EdgesFrom(st.edges, n.id), V.Unconditional(to)) {
      NoFlawAt(st.nodes, st.edges, n, V.Unconditional(to));
    }
    assert !V.GraphFlaw(st.nodes, st.edges, V.ValidationError(None, V.NoTerminals));
    forall n | n in st.nodes
      ensures !V.NodeFlaw(st.nodes, st.edges, n, V.NoTerminalAhead)
    {
      NoFlawAt(st.nodes, st.edges, n, V.NoTerminalAhead);
    }
  }

  lemma NoFlawAt(nodes: seq<Node>, edges: seq<Edge>, n: Node, p: V.Problem)
    requires V.ValidPlan(nodes, edges) && n in nodes
    ensures !V.NodeFlaw(nodes, edges, n, p)
  {
    hide V.NodeFlaw;
    assert !V.GraphFlaw(nodes, edges, V.ValidationError(Some(n.id), p));
  }

  lemma PassesFlawless(m: seq<TopLevel>, x: V.ValidationError)
    requires ModuleStep(m).Ok? && FullBodies(m)
    requires var st := ModuleStep(m).value;
      && WellReferenced(st.nodes, st.edges)
      && (exists n :: n in st.nodes && V.IsTerminalOpcode(n.op)) && RunsEnd(st.nodes, st.edges)
      && !WalksMatch(m) && !WalksAssert(m) && !BodyLeaks(ByControl, Start, GraphBody(m))
    ensures !V.GraphFlaw(ModuleStep(m).value.nodes, ModuleStep(m).value.edges, x)
  {
    hide ModuleStep, FullBodies, WalksMatch, WalksAssert, BodyLeaks, RunsEnd, V.NodeFlaw, V.EdgeProblem, WellReferenced;
    var st := ModuleStep(m).value;
    OnlyNodeFlaws(m);
    if V.GraphFlaw(st.nodes, st.edges, x) && x.node.Some? {
      var n :| n in st.nodes && n.id == x.node.value && V.NodeFlaw(st.nodes, st.edges, n, x.problem);
      assert !x.problem.MissingArg? && x.problem != V.Unreachable;
      EdgesInPlace(m, n, x.problem);
      OtherFlaws(st.nodes, st.edges, n, x.problem);
    }
  }

  lemma OtherFlaws(nodes: seq<Node>, edges: seq<Edge>, n: Node, p: V.Problem)
    requires n in nodes && RunsEnd(nodes, edges) && !p.MissingArg? && p != V.Unreachable && V.NodeFlaw(nodes, edges, n, p)
    ensures V.EdgeProblem(n, EdgesFrom(edges, n.id), p)
  {
  }

  lemma EdgesInPlace(m: seq<TopLevel>, n: Node, p: V.Problem)
    requires ModuleStep(m).Ok? && FullBodies(m) && n in ModuleStep(m).value.nodes
    requires WellReferenced(ModuleStep(m).value.nodes, ModuleStep(m).value.edges)
    requires !WalksMatch(m) && !WalksAssert(m) && !BodyLeaks(ByControl, Start, GraphBody(m))
    ensures !V.EdgeProblem(n, EdgesFrom(ModuleStep(m).value.edges, n.id), p)
  {
    hide ModuleStep, FullBodies, WalksMatch, WalksAssert, BodyLeaks, WellReferenced;
    var st := ModuleStep(m).value;
    var out := EdgesFrom(st.edges, n.id);
    BranchRules(m);
    UnconditionalIff(m);
    SwitchIff(m);
    ConditionsInPlace(m);
    if n.op == Decide {
      assert !NoBranches(out);
      assert forall to :: !V.BranchProblem(out, V.Unconditional(to));
      assert !V.BranchProblem(out, p);
    } else {
      assert n.op != Switch;
      NoConditions(st, n);
    }
  }

  lemma NoConditions(st: State, n: Node)
    requires WellReferenced(st.nodes, st.edges) && Guarded(st) && n in st.nodes && n.op != Decide && n.op != Switch
    ensures forall e :: e in EdgesFrom(st.edges, n.id) ==> e.condition.None?
  {
    forall e | e in EdgesFrom(st.edges, n.id) && e.condition.Some?
      ensures false
    {
      var k :| k in st.nodes && k.id == n.id && (k.op == Decide || k.op == Switch);
      SameNode(st.nodes, k, n);
    }
  }

  lemma SameNode(nodes: seq<Node>, k: Node, n: Node)
    requires DistinctIds(nodes) && k in nodes && n in nodes && k.id == n.id
    ensures k == n
  {
    var i :| 0 <= i < |nodes| && nodes[i] == k;
    var j :| 0 <= j < |nodes| && nodes[j] == n;
    assert i == j;
  }

  // ── From the validator to the view ──────────────────────────────

  /** What the view may hide: CALC nodes. */
  ghost predicate HidesCalcs(c: C.CompiledPlan, hidden: set<nat>) {
    forall i :: i in hidden ==> i < |c.nodes| && c.nodes[i].op == Calc
  }

  /** In a validated plan the nodes that the view hides form no cycle, so the projection ends. */
  lemma ValidPlansProject(nodes: seq<Node>, edges: seq<Edge>, c: C.CompiledPlan, hidden: set<nat>)
    requires V.ValidPlan(nodes, edges) && C.CompiledFrom(c, nodes, edges) && HidesCalcs(c, hidden)
    ensures PlanView.HiddenAcyclic(c.edges, hidden)
  {
    forall p | Cycle(InnerArcs(c.edges, hidden), p)
      ensures false
    {
      HiddenCycle(nodes, edges, c, hidden, p);
    }
    assert PlanView.HiddenAcyclic(c.edges, hidden) by {
      assert InnerArcs(c.edges, hidden) ==
        set e | e in c.edges && e.fromIndex in hidden && e.toIndex in hidden :: (e.fromIndex, e.toIndex);
    }
  }

  ghost function InnerArcs(edges: seq<C.CompiledEdge>, hidden: set<nat>): set<(nat, nat)> {
    set e | e in edges && e.fromIndex in hidden && e.toIndex in hidden :: (e.fromIndex, e.toIndex)
  }

  lemma HiddenCycle(nodes: seq<Node>, edges: seq<Edge>, c: C.CompiledPlan, hidden: set<nat>, p: seq<nat>)
    requires V.ValidPlan(nodes, edges) && C.CompiledFrom(c, nodes, edges) && HidesCalcs(c, hidden)
    ensures !Cycle(InnerArcs(c.edges, hidden), p)
  {
    hide V.ValidPlan, V.LoopIds, C.CompiledFrom, InnerArcs, WellReferenced, DistinctIds;
    if Cycle(InnerArcs(c.edges, hidden), p) {
      InnerWalk(c.edges, hidden, p);
      V.ValidIsWellReferenced(nodes, edges);
      SameOpcodes(nodes, edges, c);
      var q: seq<Id> := seq(|p|, k requires 0 <= k < |p| => nodes[p[k]].id);
      forall k | 0 <= k < |q| - 1
        ensures (q[k], q[k + 1]) in Arcs(edges)
      {
        InnerWalkArc(c.edges, hidden, p, k);
        C.SameArcs(c, nodes, edges, p[k], p[k + 1]);
      }
      V.CyclesEnterLoops(nodes, edges, q);
      var k :| 0 < k < |q| && q[k] in V.LoopIds(nodes);
      NoLoopThere(nodes, edges, p[k]);
    }
  }

  lemma SameOpcodes(nodes: seq<Node>, edges: seq<Edge>, c: C.CompiledPlan)
    requires C.CompiledFrom(c, nodes, edges)
    ensures |c.nodes| == |nodes| && forall i :: 0 <= i < |nodes| ==> c.nodes[i].op == nodes[i].op
  {
    forall i | 0 <= i < |nodes|
      ensures c.nodes[i].op == nodes[i].op
    {
      assert C.NodeMatches(c.nodes[i], nodes[i], i, c.groups);
    }
  }

  lemma NoLoopThere(nodes: seq<Node>, edges: seq<Edge>, i: nat)
    requires WellReferenced(nodes, edges) && i < |nodes| && nodes[i].id in V.LoopIds(nodes)
    ensures nodes[i].op == Loop
  {
  }

  lemma InnerWalk(edges: seq<C.CompiledEdge>, hidden: set<nat>, p: seq<nat>)
    requires Cycle(InnerArcs(edges, hidden), p)
    ensures forall k :: 0 <= k < |p| ==> p[k] in hidden
  {
    forall k | 0 <= k < |p|
      ensures p[k] in hidden
    {
      if k < |p| - 1 {
        InnerWalkArc(edges, hidden, p, k);
      } else {
        InnerWalkArc(edges, hidden, p, k - 1);
      }
    }
  }

  lemma InnerWalkArc(edges: seq<C.CompiledEdge>, hidden: set<nat>, p: seq<nat>, k: nat)
    requires Walk(InnerArcs(edges, hidden), p) && k + 1 < |p|
    ensures p[k] in hidden && p[k + 1] in hidden && (p[k], p[k + 1]) in C.IndexArcs(edges)
  {
    assert (p[k], p[k + 1]) in InnerArcs(edges, hidden);
  }

  /** End to end: between two nodes that stay visible, the drawing of a validated plan
      has a path exactly if the plan has one. */
  lemma ViewKeepsPaths(nodes: seq<Node>, edges: seq<Edge>, c: C.CompiledPlan, hidden: set<nat>,
                       view: seq<PlanView.ViewEdge>, i: nat, j: nat)
    requires V.ValidPlan(nodes, edges) && C.CompiledFrom(c, nodes, edges) && HidesCalcs(c, hidden)
    requires forall a: nat, b: nat :: (a, b) in PlanView.ViewArcs(view) <==> PlanView.Bridged(C.IndexArcs(c.edges), hidden, a, b)
    requires i < |nodes| && j < |nodes| && i !in hidden && j !in hidden
    ensures Reaches(PlanView.ViewArcs(view), i, j) <==> Reaches(Arcs(edges), nodes[i].id, nodes[j].id)
  {
    hide *;
    C.SameReachability(c, nodes, edges, i, j) by { V.ValidIsWellReferenced(nodes, edges); }
    PlanView.ProjectKeepsReachability(c.edges, hidden, view, i, j);
  }

  /** From the plan to its drawing: the stages fit together, and the drawing has the paths of the plan. */
  method Draw(nodes: seq<Node>, edges: seq<Edge>, hidden: set<nat>) returns (view: Result<seq<PlanView.ViewEdge>, seq<V.ValidationError>>)
    requires forall i :: i in hidden ==> i < |nodes| && nodes[i].op == Calc
    ensures view.Ok? <==> V.ValidPlan(nodes, edges)
    ensures view.Ok? ==> forall i: nat, j: nat :: i < |nodes| && j < |nodes| && i !in hidden && j !in hidden ==>
      (Reaches(PlanView.ViewArcs(view.value), i, j) <==> Reaches(Arcs(edges), nodes[i].id, nodes[j].id))
  {
    hide *;
    var errors := V.Validate(nodes, edges);
    if errors != [] {
      return Err(errors);
    }
    var c := C.FromExecutionPlan(nodes, edges);
    HidesCompiled(nodes, edges, c, hidden);
    ValidPlansProject(nodes, edges, c, hidden);
    var shown, drawn := PlanView.Project(c.nodes, c.edges, hidden);
    view := Ok(drawn);
    forall i: nat, j: nat | i < |nodes| && j < |nodes| && i !in hidden && j !in hidden {
      ViewKeepsPaths(nodes, edges, c, hidden, drawn, i, j);
    }
  }

  lemma HidesCompiled(nodes: seq<Node>, edges: seq<Edge>, c: C.CompiledPlan, hidden: set<nat>)
    requires C.CompiledFrom(c, nodes, edges) && forall i :: i in hidden ==> i < |nodes| && nodes[i].op == Calc
    ensures HidesCalcs(c, hidden)
  {
    SameOpcodes(nodes, edges, c);
  }
}
