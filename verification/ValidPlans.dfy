/** What the validator's rules come to: a valid plan, said outright. */
module ValidPlans {
  import opened Wrappers
  import opened Graphs
  import opened Plan
  import opened Validator

  // ── What a valid plan is ────────────────────────────────────────

  /** The node is reached from a node without incoming edges, leads to an end if it leads anywhere outside
      of loop bodies, has its arguments, and leaves as its opcode asks. */
  ghost predicate InOrder(nodes: seq<Node>, edges: seq<Edge>, n: Node) {
    && (exists r :: r in Ids(nodes) && (forall e :: e in edges ==> e.to != r) && Reaches(Arcs(edges), r, n.id))
    && (n.op != Act && n.op != Error && (exists e :: e in edges && e.from == n.id) && !InBody(nodes, edges, n.id) ==>
          exists t :: Reaches(Arcs(edges), n.id, t) && (InBody(nodes, edges, t) || IsEnd(nodes, t)))
    && HasArguments(n) && LeavesRight(n, EdgesFrom(edges, n.id))
  }

  ghost predicate IsEnd(nodes: seq<Node>, id: Id) {
    exists n :: n in nodes && n.id == id && (n.op == Act || n.op == Error || n.op == Loop)
  }

  /** Data edges lead here from where an unconditional data edge leaves a LOOP. */
  ghost predicate InBody(nodes: seq<Node>, edges: seq<Edge>, id: Id) {
    exists l, e :: l in nodes && l.op == Loop && e in edges && e.from == l.id && e.condition.None? && e.kind == Data
      && Reaches(Arcs(DataEdges(edges)), e.to, id)
  }

  predicate HasArguments(n: Node) {
    match n.op
    case Input => "name" in n.args
    case Call => "type" in n.args && "target" in n.args
    case Decide => "condition" in n.args
    case Switch => "condition" in n.args
    case Act => "type" in n.args
    case Loop => "max_iterations" in n.args
    case Error => "message" in n.args
    case _ => true
  }

  /** A DECIDE or SWITCH goes two ways at least, one for true and one for false, and only under conditions; a
      LOOP and a PARALLEL lead somewhere; and no other node has a condition on an edge, but for a LOOP. */
  predicate LeavesRight(n: Node, out: seq<Edge>) {
    match n.op
    case Decide => TwoWays(out)
    case Switch => TwoWays(out)
    case Loop => out != []
    case Parallel => out != [] && forall e :: e in out ==> e.condition.None?
    case _ => forall e :: e in out ==> e.condition.None?
  }

  predicate TwoWays(out: seq<Edge>) {
    && |out| >= 2 && (exists e :: e in out && e.condition == Some("true")) && (exists e :: e in out && e.condition == Some("false"))
    && forall e :: e in out ==> e.condition.Some?
  }

  lemma InBodyIs(nodes: seq<Node>, edges: seq<Edge>, id: Id)
    ensures InBody(nodes, edges, id) <==> InLoopBody(nodes, edges, id)
  {
    hide Reaches;
    if InLoopBody(nodes, edges, id) {
      var b :| StartsBody(nodes, edges, b) && Reaches(Arcs(DataEdges(edges)), b, id);
      var e :| e in edges && e.from in LoopIds(nodes) && e.condition.None? && e.kind == Data && e.to == b;
      var l :| l in nodes && l.op == Loop && l.id == e.from;
    }
    if InBody(nodes, edges, id) {
      var l, e :| l in nodes && l.op == Loop && e in edges && e.from == l.id && e.condition.None? && e.kind == Data
        && Reaches(Arcs(DataEdges(edges)), e.to, id);
      assert StartsBody(nodes, edges, e.to);
    }
  }

  lemma LeavesRightIs(n: Node, out: seq<Edge>)
    ensures LeavesRight(n, out) <==> forall p :: !EdgeProblem(n, out, p)
  {
    forall p | LeavesRight(n, out)
      ensures !EdgeProblem(n, out, p)
    {
    }
    if !LeavesRight(n, out) {
      if n.op == Decide || n.op == Switch {
        WaysMissed(out);
        var p :| BranchProblem(out, p);
        assert EdgeProblem(n, out, p);
      } else if out == [] {
        assert EdgeProblem(n, out, if n.op == Loop then NoLoopBody else NoParallelBranch);
      } else {
        var e :| e in out && e.condition.Some?;
        assert EdgeProblem(n, out, if n.op == Parallel then ParallelCondition(e.to) else ConditionOn(e.to, e.kind));
      }
    }
  }

  lemma WaysMissed(out: seq<Edge>)
    requires !TwoWays(out)
    ensures exists p :: BranchProblem(out, p)
  {
    if |out| < 2 {
      assert BranchProblem(out, FewBranches);
    } else if e :| e in out && e.condition.None? {
      assert BranchProblem(out, Unconditional(e.to));
    } else {
      assert BranchProblem(out, MissingTrue) || BranchProblem(out, MissingFalse);
    }
  }

  lemma ArgumentsIs(n: Node)
    ensures HasArguments(n) <==> forall k :: k in RequiredArgs(n.op) ==> k in n.args
  {
    assert n.op == Input ==> "name" in RequiredArgs(n.op);
    assert n.op == Call ==> "type" in RequiredArgs(n.op) && "target" in RequiredArgs(n.op);
    assert n.op == Decide || n.op == Switch ==> "condition" in RequiredArgs(n.op);
    assert n.op == Act ==> "type" in RequiredArgs(n.op);
    assert n.op == Loop ==> "max_iterations" in RequiredArgs(n.op);
    assert n.op == Error ==> "message" in RequiredArgs(n.op);
  }

  lemma AheadIs(nodes: seq<Node>, edges: seq<Edge>, id: Id)
    ensures TerminalAhead(nodes, edges, id) <==>
      exists t :: Reaches(Arcs(edges), id, t) && (InBody(nodes, edges, t) || IsEnd(nodes, t))
  {
    hide Reaches, InBody, InLoopBody;
    forall t {
      InBodyIs(nodes, edges, t);
    }
  }

  lemma InOrderIs(nodes: seq<Node>, edges: seq<Edge>, n: Node)
    ensures InOrder(nodes, edges, n) <==> forall p :: !NodeFlaw(nodes, edges, n, p)
  {
    hide Reaches, InBody, InLoopBody, TerminalAhead, EdgeProblem, LeavesRight, HasArguments, RequiredArgs, IsEnd;
    InBodyIs(nodes, edges, n.id);
    AheadIs(nodes, edges, n.id);
    LeavesRightIs(n, EdgesFrom(edges, n.id));
    ArgumentsIs(n);
    assert FromRoot(nodes, edges, n.id) <==>
      exists r :: r in Ids(nodes) && (forall e :: e in edges ==> e.to != r) && Reaches(Arcs(edges), r, n.id);
    assert EdgesFrom(edges, n.id) != [] <==> exists e :: e in edges && e.from == n.id by {
      if e :| e in edges && e.from == n.id {
        assert e in EdgesFrom(edges, n.id);
      }
      if EdgesFrom(edges, n.id) != [] {
        assert EdgesFrom(edges, n.id)[0] in EdgesFrom(edges, n.id);
      }
    }
    if InOrder(nodes, edges, n) {
      forall p
        ensures !NodeFlaw(nodes, edges, n, p)
      {
      }
    } else if !FromRoot(nodes, edges, n.id) {
      assert NodeFlaw(nodes, edges, n, Unreachable);
    } else if !HasArguments(n) {
      var k :| k in RequiredArgs(n.op) && k !in n.args;
      assert NodeFlaw(nodes, edges, n, MissingArg(k));
    } else if !LeavesRight(n, EdgesFrom(edges, n.id)) {
      var p :| EdgeProblem(n, EdgesFrom(edges, n.id), p);
      assert NodeFlaw(nodes, edges, n, p);
    } else {
      assert NodeFlaw(nodes, edges, n, NoTerminalAhead);
    }
  }

  /** A plan is valid exactly if its references are in order, it has an ACT or ERROR, every cycle goes through a
      LOOP, and each of its nodes is in order. */
  lemma ValidPlanIff(nodes: seq<Node>, edges: seq<Edge>)
    ensures ValidPlan(nodes, edges) <==>
      && WellReferenced(nodes, edges)
      && (exists n :: n in nodes && (n.op == Act || n.op == Error))
      && Acyclic(set e | e in edges && (forall n :: n in nodes && n.id == e.to ==> n.op != Loop) :: (e.from, e.to))
      && forall n :: n in nodes ==> InOrder(nodes, edges, n)
  {
    hide NodeFlaw, InOrder, Acyclic, WellReferenced;
    var arcs := set e | e in edges && (forall n :: n in nodes && n.id == e.to ==> n.op != Loop) :: (e.from, e.to);
    assert arcs == Arcs(NonLoopEdges(edges, LoopIds(nodes)));
    forall n {
      InOrderIs(nodes, edges, n);
    }
    if ValidPlan(nodes, edges) {
      assert !GraphFlaw(nodes, edges, ValidationError(None, HasCycle)) && !GraphFlaw(nodes, edges, ValidationError(None, NoTerminals));
      forall n | n in nodes
        ensures InOrder(nodes, edges, n)
      {
        forall p
          ensures !NodeFlaw(nodes, edges, n, p)
        {
          assert !GraphFlaw(nodes, edges, ValidationError(Some(n.id), p));
        }
      }
    }
  }
}
