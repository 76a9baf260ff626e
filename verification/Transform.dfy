/** The transform engine: it walks a program and fills the plan in place. */
module Transform {
  import opened Wrappers
  import opened Ast
  import opened Plan
  import opened TransformSpec

  ghost predicate StmtAgrees(r: Result<(Id, Id), seq<Fault>>, after: State, spec: Outcome) {
    match r
    case Ok(ends) => spec == Done(after, ends.0, ends.1)
    case Err(faults) => spec == Stopped(faults)
  }

  ghost predicate BodyAgrees(r: Result<Trail, seq<Fault>>, after: State, spec: BodyOutcome) {
    match r
    case Ok(trail) => spec == Walked(after, trail)
    case Err(faults) => spec == Halted(faults)
  }

  class TransformEngine {
    var nodes: seq<Node>
    var edges: seq<Edge>
    var varMap: map<string, Id>
    var nextId: Id
    var currentBranch: Option<nat>
    var currentGroup: Option<string>
    var errors: seq<Fault>

    ghost function Snapshot(): State
      reads this
    {
      State(nodes, edges, varMap, nextId, currentBranch, currentGroup, errors)
    }

    constructor ()
      ensures Snapshot() == Initial
    {
      nodes, edges, varMap, nextId := [], [], map[], 0;
      currentBranch, currentGroup, errors := None, None, [];
    }

    method NewId() returns (id: Id)
      modifies this`nextId
      ensures (Snapshot(), id) == GenId(old(Snapshot()))
    {
      id := nextId;
      nextId := nextId + 1;
    }

    method PushNode(op: Opcode, args: seq<string>) returns (id: Id)
      requires Complete(op, args)
      modifies this
      ensures (Snapshot(), id) == Push(old(Snapshot()), op, args)
    {
      id := NewId();
      nodes := nodes + [Node(id, op, args, currentBranch, currentGroup)];
    }

    method PushEdge(from: Id, to: Id)
      modifies this`edges
      ensures Snapshot() == Link(old(Snapshot()), from, to)
    {
      edges := edges + [NewEdge(from, to, None, Data)];
    }

    method PushCondEdge(from: Id, to: Id, condition: string)
      modifies this`edges
      ensures Snapshot() == CondLink(old(Snapshot()), from, to, condition)
    {
      edges := edges + [NewEdge(from, to, Some(condition), Data)];
    }

    method PushControlEdge(from: Id, to: Id)
      modifies this`edges
      ensures Snapshot() == ControlLink(old(Snapshot()), from, to)
    {
      edges := edges + [NewEdge(from, to, None, Control)];
    }

    method Report(f: Fault)
      modifies this`errors
      ensures Snapshot() == AddFault(old(Snapshot()), f)
    {
      errors := errors + [f];
    }

    method LookupOrInput(name: string) returns (id: Id)
      modifies this
      ensures (Snapshot(), id) == ResolveVar(old(Snapshot()), name)
    {
      if name in varMap {
        return varMap[name];
      }
      id := PushNode(Input, ["name"]);
      varMap := varMap[name := id];
    }

    // ── Expressions ───────────────────────────────────────────────

    method WireExprDependencies(e: Expr, target: Id)
      modifies this
      ensures Snapshot() == WireDeps(old(Snapshot()), e, target)
      decreases e, 1
    {
      match e {
        case Name(id) =>
          if id in varMap {
            PushEdge(varMap[id], target);
          }
        case Attribute(value, _) => WireExprDependencies(value, target);
        case Subscript(value, slice) =>
          WireExprDependencies(value, target);
          WireExprDependencies(slice, target);
        case Call(func, args, keywords) =>
          WireExprDependencies(func, target);
          WireEach(args, target);
          ghost var start := Snapshot();
          for i := 0 to |keywords|
            invariant WireKeywords(Snapshot(), keywords[i..], target) == WireKeywords(start, keywords, target)
          {
            WireExprDependencies(keywords[i].value, target);
          }
        case Compound(parts) => WireEach(parts, target);
        case Leaf =>
      }
    }

    method WireEach(es: seq<Expr>, target: Id)
      modifies this
      ensures Snapshot() == WireAll(old(Snapshot()), es, target)
      decreases es, 0
    {
      for i := 0 to |es|
        invariant WireAll(Snapshot(), es[i..], target) == WireAll(old(Snapshot()), es, target)
      {
        WireExprDependencies(es[i], target);
      }
    }

    method TransformExprToNode(e: Expr) returns (id: Id)
      modifies this
      ensures (Snapshot(), id) == ToNode(old(Snapshot()), e)
      decreases e, 1
    {
      if !e.Call? {
        id := PushNode(Calc, ["expr"]);
        WireExprDependencies(e, id);
        return;
      }
      var callee := Callee(e.func);
      if callee.None? {
        Report(DynamicCall);
        id := NewId();
        return;
      }
      var name := callee.value;
      if name == "call" || name == "act" {
        id := PushNode(Opcode.Call, ["type", "target"] + KeywordNames(e.keywords));
        FeedArguments(e.args, id);
        FeedKeywordArguments(e.keywords, id);
      } else if name == "sleep" {
        id := PushNode(Wait, ["duration_secs"]);
        FeedArguments(e.args, id);
      } else if IsBuiltin(name) {
        var argIds := TransformEach(e.args);
        id := PushNode(Calc, ["expr"]);
        ghost var start := Snapshot();
        for i := 0 to |argIds|
          invariant LinkAll(Snapshot(), argIds[i..], id) == LinkAll(start, argIds, id)
        {
          PushEdge(argIds[i], id);
        }
      } else {
        id := PushNode(Calc, ["expr"]);
        FeedArguments(e.args, id);
        FeedKeywordArguments(e.keywords, id);
      }
    }

    method FeedArguments(es: seq<Expr>, target: Id)
      modifies this
      ensures Snapshot() == Feed(old(Snapshot()), es, target)
      decreases es, 0
    {
      for i := 0 to |es|
        invariant Feed(Snapshot(), es[i..], target) == Feed(old(Snapshot()), es, target)
      {
        var a := TransformExprToNode(es[i]);
        PushEdge(a, target);
      }
    }

    method FeedKeywordArguments(ks: seq<Keyword>, target: Id)
      modifies this
      ensures Snapshot() == FeedKeywords(old(Snapshot()), ks, target)
      decreases ks, 0
    {
      for i := 0 to |ks|
        invariant FeedKeywords(Snapshot(), ks[i..], target) == FeedKeywords(old(Snapshot()), ks, target)
      {
        var a := TransformExprToNode(ks[i].value);
        PushEdge(a, target);
      }
    }

    method TransformEach(es: seq<Expr>) returns (ids: seq<Id>)
      modifies this
      ensures (Snapshot(), ids) == ToNodes(old(Snapshot()), es)
      decreases es, 0
    {
      ids := [];
      ghost var all := ToNodes(Snapshot(), es);
      assert ids + all.1 == all.1;
      for i := 0 to |es|
        invariant ToNodes(Snapshot(), es[i..]).0 == all.0
        invariant ids + ToNodes(Snapshot(), es[i..]).1 == all.1
      {
        var a := TransformExprToNode(es[i]);
        assert es[i..][1..] == es[i + 1..];
        ghost var more := ToNodes(Snapshot(), es[i + 1..]).1;
        assert ids + ([a] + more) == (ids + [a]) + more;
        ids := ids + [a];
      }
      assert ids + [] == ids;
    }

    // ── Statements ────────────────────────────────────────────────

    method GiveUpOn(f: Fault) returns (r: Result<(Id, Id), seq<Fault>>)
      modifies this
      ensures StmtAgrees(r, Snapshot(), Fallback(old(Snapshot()), f))
    {
      Report(f);
      var a := NewId();
      var b := NewId();
      r := Ok((a, b));
    }

    method TransformAssign(targets: seq<Expr>, value: Expr) returns (r: Result<(Id, Id), seq<Fault>>)
      modifies this
      ensures StmtAgrees(r, Snapshot(), AssignStep(old(Snapshot()), targets, value))
    {
      if |targets| != 1 {
        r := GiveUpOn(ManyTargets);
      } else if !targets[0].Name? {
        r := GiveUpOn(TargetNotName);
      } else {
        var n := TransformExprToNode(value);
        nodes := MarkOutput(nodes, n);
        varMap := varMap[targets[0].id := n];
        r := Ok((n, n));
      }
    }

    method TransformAnnAssign(target: Expr, annotated: Option<Expr>) returns (r: Result<(Id, Id), seq<Fault>>)
      modifies this
      ensures StmtAgrees(r, Snapshot(), AnnAssignStep(old(Snapshot()), target, annotated))
    {
      if !target.Name? {
        r := GiveUpOn(TargetNotName);
      } else {
        var n;
        if annotated.Some? {
          n := TransformExprToNode(annotated.value);
        } else {
          n := PushNode(Input, ["name"]);
        }
        varMap := varMap[target.id := n];
        r := Ok((n, n));
      }
    }

    method TransformAugAssign(target: Expr, value: Expr) returns (r: Result<(Id, Id), seq<Fault>>)
      modifies this
      ensures StmtAgrees(r, Snapshot(), AugAssignStep(old(Snapshot()), target, value))
    {
      if !target.Name? {
        r := GiveUpOn(TargetNotName);
      } else {
        var prior := LookupOrInput(target.id);
        var rhs := TransformExprToNode(value);
        var n := PushNode(Calc, ["expr", "output"]);
        PushEdge(prior, n);
        PushEdge(rhs, n);
        varMap := varMap[target.id := n];
        r := Ok((n, n));
      }
    }

    method TransformReturn(returned: Option<Expr>) returns (r: Result<(Id, Id), seq<Fault>>)
      modifies this
      ensures StmtAgrees(r, Snapshot(), ReturnStep(old(Snapshot()), returned))
    {
      if returned.Some? {
        var v := TransformExprToNode(returned.value);
        var n := PushNode(Act, ["type"]);
        PushEdge(v, n);
        r := Ok((v, n));
      } else {
        var n := PushNode(Act, ["type"]);
        r := Ok((n, n));
      }
    }

    method TransformStmt(s: Stmt) returns (r: Result<(Id, Id), seq<Fault>>)
      modifies this
      ensures StmtAgrees(r, Snapshot(), StmtStep(old(Snapshot()), s))
      decreases s, 1
    {
      hide IfStep, ForStep, WithStep, MatchStep, AssignStep, AnnAssignStep, AugAssignStep, ReturnStep, ToNode, Extends;
      if errors != [] {
        return Err(errors);
      }
      match s {
        case Assign(targets, value) => r := TransformAssign(targets, value);
        case AnnAssign(target, annotated) => r := TransformAnnAssign(target, annotated);
        case AugAssign(target, value) => r := TransformAugAssign(target, value);
        case ExprStmt(value) =>
          var n := TransformExprToNode(value);
          r := Ok((n, n));
        case Return(returned) => r := TransformReturn(returned);
        case If(_, _, _) => r := TransformIf(s);
        case For(_, _, _) => r := TransformFor(s);
        case With(_, _) => r := TransformWith(s);
        case Match(_, _) => r := TransformMatch(s);
        case Pass =>
          var n := NewId();
          r := Ok((n, n));
        case Break =>
          var n := PushNode(Act, ["type"]);
          r := Ok((n, n));
        case Continue =>
          var n := PushNode(Act, ["type"]);
          r := Ok((n, n));
        case Raise =>
          var n := PushNode(Error, ["message"]);
          r := Ok((n, n));
        case Assert(test) =>
          var v := TransformExprToNode(test);
          var decide := PushNode(Decide, ["condition"]);
          PushEdge(v, decide);
          r := Ok((decide, decide));
        case OtherStmt =>
          Report(UnsupportedStatement);
          var n := NewId();
          r := Ok((n, n));
      }
    }

    /** The statement loop of a function, loop, branch, case or GROUP body. */
    method TransformBody(stmts: seq<Stmt>, chain: Chain) returns (r: Result<Trail, seq<Fault>>)
      modifies this
      ensures BodyAgrees(r, Snapshot(), Body(old(Snapshot()), stmts, chain, NoTrail))
      decreases stmts, 0
    {
      var first, last, lastFirst: Option<Id> := None, None, None;
      var terminal := false;
      for i := 0 to |stmts|
        invariant Body(Snapshot(), stmts[i..], chain, Trail(first, last, lastFirst, terminal))
               == Body(old(Snapshot()), stmts, chain, NoTrail)
      {
        var ends := TransformStmt(stmts[i]);
        if ends.Err? {
          return Err(ends.error);
        }
        var (f, l) := ends.value;
        if last.Some? {
          match chain {
            case Unchained =>
            case ByControl =>
              if !terminal {
                PushControlEdge(last.value, f);
              }
            case ByData => PushEdge(last.value, f);
          }
        }
        if first.None? {
          first := Some(f);
        }
        last, lastFirst, terminal := Some(l), Some(f), IsTerminal(stmts[i]);
        assert stmts[i..][1..] == stmts[i + 1..];
      }
      r := Ok(Trail(first, last, lastFirst, terminal));
    }

    method TransformWith(s: Stmt) returns (r: Result<(Id, Id), seq<Fault>>)
      requires s.With? && errors == []
      modifies this
      ensures StmtAgrees(r, Snapshot(), WithStep(old(Snapshot()), s))
      decreases s, 0
    {
      match s.item {
        case ParallelItem =>
          var par := PushNode(Parallel, []);
          ghost var start := Snapshot();
          for k := 0 to |s.body|
            invariant currentBranch == old(currentBranch)
            invariant ParallelBody(Snapshot(), s.body[k..], k, par) == ParallelBody(start, s.body, 0, par)
          {
            var saved := currentBranch;
            currentBranch := Some(k);
            var ends := TransformStmt(s.body[k]);
            if ends.Err? {
              return Err(ends.error);
            }
            currentBranch := saved;
            PushEdge(par, ends.value.0);
            assert s.body[k..][1..] == s.body[k + 1..];
          }
          r := Ok((par, par));
        case GroupItem(title) =>
          var saved := currentGroup;
          currentGroup := Some(title);
          var body := TransformBody(s.body, ByData);
          if body.Err? {
            return Err(body.error);
          }
          currentGroup := saved;
          var spare := NewId();
          var first := if body.value.first.Some? then body.value.first.value else spare;
          var last := if body.value.last.Some? then body.value.last.value else spare;
          r := Ok((first, last));
        case OtherItem => r := GiveUpOn(UnsupportedWith);
      }
    }

    method TransformFor(s: Stmt) returns (r: Result<(Id, Id), seq<Fault>>)
      requires s.For? && errors == []
      modifies this
      ensures StmtAgrees(r, Snapshot(), ForStep(old(Snapshot()), s))
      decreases s, 0
    {
      var iter := TransformExprToNode(s.iter);
      if !s.target.Name? {
        r := GiveUpOn(TargetNotName);
        return;
      }
      var loop := PushNode(Loop, ["target", "max_iterations"]);
      PushEdge(iter, loop);
      varMap := varMap[s.target.id := loop];
      var body := TransformBody(s.body, ByControl);
      if body.Err? {
        return Err(body.error);
      }
      if body.value.first.Some? {
        PushEdge(loop, body.value.first.value);
      }
      r := Ok((loop, loop));
    }

    method TransformMatch(s: Stmt) returns (r: Result<(Id, Id), seq<Fault>>)
      requires s.Match? && errors == []
      modifies this
      ensures StmtAgrees(r, Snapshot(), MatchStep(old(Snapshot()), s))
      decreases s, 0
    {
      var v := TransformExprToNode(s.subject);
      var switch := PushNode(Switch, ["source"]);
      PushEdge(v, switch);
      var hasDefault := false;
      ghost var start := Snapshot();
      for i := 0 to |s.cases|
        invariant Cases(Snapshot(), s.cases[i..], switch, hasDefault) == Cases(start, s.cases, switch, false)
      {
        var c := s.cases[i];
        assert s.cases[i..][1..] == s.cases[i + 1..];
        if c.pattern.Unsupported? {
          Report(UnsupportedPattern);
          continue;
        }
        if c.pattern.Capture? {
          if hasDefault {
            Report(ManyDefaults);
          }
          hasDefault := true;
        }
        var body := TransformBody(c.body, Unchained);
        if body.Err? {
          return Err(body.error);
        }
        if body.value.lastFirst.Some? {
          if c.pattern.Literal? {
            PushCondEdge(switch, body.value.lastFirst.value, c.pattern.text);
          } else {
            PushEdge(switch, body.value.lastFirst.value);
          }
        }
      }
      r := Ok((switch, switch));
    }

    /** Gates the last and, if it is another one, the first node of a branch. */
    method GateBranch(decide: Id, t: Trail, condition: string)
      modifies this`edges
      ensures Snapshot() == Gate(old(Snapshot()), decide, t, condition)
    {
      if t.last.Some? {
        PushCondEdge(decide, t.last.value, condition);
      }
      if t.first.Some? && t.first != t.last {
        PushCondEdge(decide, t.first.value, condition);
      }
    }

    method TransformIf(s: Stmt) returns (r: Result<(Id, Id), seq<Fault>>)
      requires s.If? && errors == []
      modifies this
      ensures StmtAgrees(r, Snapshot(), IfStep(old(Snapshot()), s))
      decreases s, 0
    {
      var cond := TransformExprToNode(s.test);
      var decide := PushNode(Decide, ["condition"]);
      PushEdge(cond, decide);
      var beforeTrue := varMap.Keys;
      var body := TransformBody(s.body, Unchained);
      if body.Err? {
        return Err(body.error);
      }
      var trueVars := varMap.Keys - beforeTrue;
      GateBranch(decide, body.value, "true");
      var beforeFalse := varMap.Keys;
      var orelse := TransformBody(s.orelse, Unchained);
      if orelse.Err? {
        return Err(orelse.error);
      }
      var falseVars := varMap.Keys - beforeFalse;
      GateBranch(decide, orelse.value, "false");
      if AllTerminal(s.body) && AllTerminal(s.orelse) {
        return Ok((decide, decide));
      }
      var merge := JoinBranches(decide, s, body.value, orelse.value, trueVars + falseVars);
      r := Ok((decide, merge));
    }

    method JoinBranches(decide: Id, s: Stmt, t: Trail, e: Trail, names: set<string>) returns (merge: Id)
      requires s.If?
      modifies this
      ensures (Snapshot(), merge) == Join(old(Snapshot()), decide, s, t, e, names)
    {
      merge := PushNode(Merge, []);
      if t.last.Some? && !AllTerminal(s.body) {
        PushEdge(t.last.value, merge);
      }
      if e.last.Some? && !AllTerminal(s.orelse) {
        PushEdge(e.last.value, merge);
      }
      if AllTerminal(s.body) && s.orelse == [] {
        PushCondEdge(decide, merge, "false");
      }
      if !AllTerminal(s.body) && s.orelse == [] {
        PushCondEdge(decide, merge, "false");
      }
      MoveVariables(names, merge);
    }

    /** Points the names at `id`, in whatever order a hash set yields them. */
    method MoveVariables(names: set<string>, id: Id)
      modifies this`varMap
      ensures Snapshot() == old(Snapshot()).(varMap := Rebind(old(varMap), names, id))
    {
      var left := names;
      RebindNone(varMap, id);
      ghost var before, moved := varMap, {};
      while left != {}
        invariant moved + left == names && varMap == Rebind(before, moved, id)
        decreases |left|
      {
        var x :| x in left;
        RebindOne(before, moved, x, id);
        varMap, left := varMap[x := id], left - {x};
        moved := moved + {x};
      }
      assert moved == names;
    }

    // ── Modules ───────────────────────────────────────────────────

    method PushParams(names: seq<string>)
      modifies this
      ensures Snapshot() == Params(old(Snapshot()), names)
    {
      for i := 0 to |names|
        invariant Params(Snapshot(), names[i..]) == Params(old(Snapshot()), names)
      {
        var id := PushNode(Input, ["name"]);
        varMap := varMap[names[i] := id];
        assert names[i..][1..] == names[i + 1..];
      }
    }

    method TransformModule(m: seq<TopLevel>) returns (r: Result<(), seq<Fault>>)
      requires Snapshot() == Initial
      modifies this
      ensures match r
              case Ok(_) => ModuleStep(m) == Ok(Snapshot())
              case Err(faults) => ModuleStep(m) == Err(faults)
    {
      var metas := 0;
      for i := 0 to |m|
        invariant metas <= 1 && metas == MetaCount(m[..i]) && Snapshot() == Initial
      {
        assert m[..i + 1][..i] == m[..i];
        if m[i].Meta? {
          if metas == 1 {
            MetaCountMono(m, i + 1);
            return Err([ManyMetas]);
          }
          metas := metas + 1;
        }
      }
      assert m[..|m|] == m;
      var func := FindGraph(m);
      if func.None? {
        return Err([NoGraphFunction]);
      }
      FindGraphFinds(m);
      PushParams(func.value.args);
      PushParams(func.value.posonlyargs);
      var body := TransformBody(func.value.body, ByControl);
      r := if body.Ok? then Ok(()) else Err(body.error);
    }
  }

  lemma RebindNone(m: map<string, Id>, id: Id)
    ensures Rebind(m, {}, id) == m
  {
  }

  lemma RebindOne(m: map<string, Id>, names: set<string>, x: string, id: Id)
    ensures Rebind(m, names, id)[x := id] == Rebind(m, names + {x}, id)
  {
  }

  lemma {:induction false} MetaCountMono(m: seq<TopLevel>, i: nat)
    requires i <= |m|
    ensures MetaCount(m[..i]) <= MetaCount(m)
    decreases |m|
  {
    if i < |m| {
      MetaCountMono(m[..|m| - 1], i);
      assert m[..|m| - 1][..i] == m[..i];
    } else {
      assert m[..i] == m;
    }
  }
}
