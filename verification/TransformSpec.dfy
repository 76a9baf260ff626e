/** What each step of the transform does to the plan under construction. */
module TransformSpec {
  import opened Wrappers
  import opened Ast
  import opened Plan
  import Validator

  datatype Fault =
    | NoGraphFunction | ManyMetas | ManyTargets | TargetNotName | UnsupportedWith | UnsupportedStatement
    | DynamicCall | ManyDefaults | UnsupportedPattern

  datatype State = State(
    nodes: seq<Node>, edges: seq<Edge>, varMap: map<string, Id>, nextId: Id,
    branch: Option<nat>, group: Option<string>, faults: seq<Fault>)

  const Initial := State([], [], map[], 0, None, None, [])

  /** A SWITCH has been pushed without the argument that the validator asks of one. */
  ghost predicate BareSwitch(nodes: seq<Node>) {
    exists n :: n in nodes && n.op == Switch && "condition" !in n.args
  }

  /** The arguments that the validator asks of a node, except that a SWITCH may go without. */
  predicate Complete(op: Opcode, args: seq<string>) {
    op == Switch || forall k :: k in Validator.RequiredArgs(op) ==> k in args
  }

  ghost predicate AllComplete(nodes: seq<Node>) {
    forall n :: n in nodes ==> Complete(n.op, n.args)
  }

  /** `b` continues `a`: ids are never reused, a recorded fault stays recorded, a bare SWITCH
      stays one, edges are only added, arguments stay complete, and the enclosing branch and group are again what they were. */
  ghost predicate Extends(a: State, b: State) {
    && a.nextId <= b.nextId && (b.faults == [] ==> a.faults == []) && a.branch == b.branch && a.group == b.group
    && (BareSwitch(a.nodes) ==> BareSwitch(b.nodes)) && a.edges <= b.edges
    && (AllComplete(a.nodes) ==> AllComplete(b.nodes))
  }

  // ── Elementary steps ────────────────────────────────────────────

  function GenId(st: State): (r: (State, Id)) {
    (st.(nextId := st.nextId + 1), st.nextId)
  }

  function Push(st: State, op: Opcode, args: seq<string>): (r: (State, Id))
    requires Complete(op, args)
    ensures Extends(st, r.0)
  {
    (st.(nodes := st.nodes + [Node(st.nextId, op, args, st.branch, st.group)], nextId := st.nextId + 1), st.nextId)
  }

  function AddEdge(st: State, from: Id, to: Id, condition: Option<string>, kind: EdgeKind): (r: State)
    ensures Extends(st, r)
  {
    st.(edges := st.edges + [NewEdge(from, to, condition, kind)])
  }

  function Link(st: State, from: Id, to: Id): State {
    AddEdge(st, from, to, None, Data)
  }

  function CondLink(st: State, from: Id, to: Id, condition: string): State {
    AddEdge(st, from, to, Some(condition), Data)
  }

  function ControlLink(st: State, from: Id, to: Id): State {
    AddEdge(st, from, to, None, Control)
  }

  function Bind(st: State, name: string, id: Id): State {
    st.(varMap := st.varMap[name := id])
  }

  function AddFault(st: State, f: Fault): State {
    st.(faults := st.faults + [f])
  }

  // ── Expressions ─────────────────────────────────────────────────

  /** One edge into `target` for each variable occurrence that has a writer. */
  function WireDeps(st: State, e: Expr, target: Id): (r: State)
    ensures Extends(st, r) && r == st.(edges := r.edges)
    decreases e, 1
  {
    match e
    case Name(id) => if id in st.varMap then Link(st, st.varMap[id], target) else st
    case Attribute(value, _) => WireDeps(st, value, target)
    case Subscript(value, slice) => WireDeps(WireDeps(st, value, target), slice, target)
    case Call(func, args, keywords) =>
      WireKeywords(WireAll(WireDeps(st, func, target), args, target), keywords, target)
    case Compound(parts) => WireAll(st, parts, target)
    case Leaf => st
  }

  function WireAll(st: State, es: seq<Expr>, target: Id): (r: State)
    ensures Extends(st, r) && r == st.(edges := r.edges)
    decreases es, 0
  {
    if es == [] then st else WireAll(WireDeps(st, es[0], target), es[1..], target)
  }

  function WireKeywords(st: State, ks: seq<Keyword>, target: Id): (r: State)
    ensures Extends(st, r) && r == st.(edges := r.edges)
    decreases ks, 0
  {
    if ks == [] then st else WireKeywords(WireDeps(st, ks[0].value, target), ks[1..], target)
  }

  /** The node that computes an expression. The node of a call is numbered before the nodes
      of its arguments, except for a builtin. */
  function ToNode(st: State, e: Expr): (r: (State, Id))
    ensures Extends(st, r.0)
    decreases e, 1
  {
    match e
    case Call(func, args, keywords) =>
      (match Callee(func)
       case None => GenId(AddFault(st, DynamicCall))
       case Some(name) =>
         if name == "call" || name == "act" then
           var (s1, n) := Push(st, Opcode.Call, ["type", "target"] + KeywordNames(keywords));
           var s2 := Feed(s1, args, n);
           var s3 := FeedKeywords(s2, keywords, n);
           (s3, n)
         else if name == "sleep" then
           var (s1, n) := Push(st, Wait, ["duration_secs"]);
           var s2 := Feed(s1, args, n);
           (s2, n)
         else if IsBuiltin(name) then
           var (s1, ids) := ToNodes(st, args);
           var (s2, n) := Push(s1, Calc, ["expr"]);
           var s3 := LinkAll(s2, ids, n);
           (s3, n)
         else
           var (s1, n) := Push(st, Calc, ["expr"]);
           var s2 := Feed(s1, args, n);
           var s3 := FeedKeywords(s2, keywords, n);
           (s3, n))
    case _ =>
      var (s1, n) := Push(st, Calc, ["expr"]);
      var s2 := WireDeps(s1, e, n);
      (s2, n)
  }

  function KeywordNames(ks: seq<Keyword>): seq<string> {
    if ks == [] then [] else [ks[0].arg] + KeywordNames(ks[1..])
  }

  /** Computes each argument and feeds its value to `target`. */
  function Feed(st: State, es: seq<Expr>, target: Id): (r: State)
    ensures Extends(st, r)
    decreases es, 0
  {
    if es == [] then st
    else
      var (s1, a) := ToNode(st, es[0]);
      var s2 := Link(s1, a, target);
      var s3 := Feed(s2, es[1..], target);
      s3
  }

  function FeedKeywords(st: State, ks: seq<Keyword>, target: Id): (r: State)
    ensures Extends(st, r)
    decreases ks, 0
  {
    if ks == [] then st
    else
      var (s1, a) := ToNode(st, ks[0].value);
      var s2 := Link(s1, a, target);
      var s3 := FeedKeywords(s2, ks[1..], target);
      s3
  }

  function ToNodes(st: State, es: seq<Expr>): (r: (State, seq<Id>))
    ensures Extends(st, r.0)
    decreases es, 0
  {
    if es == [] then (st, [])
    else
      var (s1, a) := ToNode(st, es[0]);
      var (s2, rest) := ToNodes(s1, es[1..]);
      (s2, [a] + rest)
  }

  function LinkAll(st: State, froms: seq<Id>, to: Id): (r: State)
    ensures Extends(st, r)
    decreases froms
  {
    if froms == [] then st
    else
      var s1 := Link(st, froms[0], to);
      var s2 := LinkAll(s1, froms[1..], to);
      s2
  }

  function ResolveVar(st: State, name: string): (r: (State, Id))
    ensures Extends(st, r.0)
  {
    if name in st.varMap then (st, st.varMap[name])
    else
      var (s1, n) := Push(st, Input, ["name"]);
      (Bind(s1, name, n), n)
  }

  // ── Statements ──────────────────────────────────────────────────

  /** Where control enters a statement and where it leaves, or the faults that stop the transform. */
  datatype Outcome = Done(st: State, first: Id, last: Id) | Stopped(faults: seq<Fault>)

  /** How the statements of a body are chained. */
  datatype Chain = Unchained | ByControl | ByData

  /** The chain so far: its first and last node, and the first node of the last statement. */
  datatype Trail = Trail(first: Option<Id>, last: Option<Id>, lastFirst: Option<Id>, terminal: bool)

  const NoTrail := Trail(None, None, None, false)

  datatype BodyOutcome = Walked(st: State, trail: Trail) | Halted(faults: seq<Fault>)

  function Advance(t: Trail, first: Id, last: Id, terminal: bool): Trail {
    Trail(if t.first.Some? then t.first else Some(first), Some(last), Some(first), terminal)
  }

  function ChainTo(st: State, chain: Chain, t: Trail, first: Id): (r: State)
    ensures Extends(st, r)
  {
    if t.last.None? then st
    else
      match chain
      case Unchained => st
      case ByControl => if t.terminal then st else ControlLink(st, t.last.value, first)
      case ByData => Link(st, t.last.value, first)
  }

  function Fallback(st: State, f: Fault): (r: Outcome)
    ensures r.Done? && Extends(st, r.st)
  {
    var (s1, a) := GenId(AddFault(st, f));
    var (s2, b) := GenId(s1);
    Done(s2, a, b)
  }

  /** The first node of that id also stores its result under a variable. */
  function MarkOutput(nodes: seq<Node>, id: Id): (r: seq<Node>)
    ensures |r| == |nodes|
    ensures forall i :: 0 <= i < |nodes| ==> r[i] == nodes[i].(args := r[i].args)
    ensures forall i :: 0 <= i < |nodes| && nodes[i].id != id ==> r[i] == nodes[i]
    ensures forall i :: 0 <= i < |nodes| ==> r[i].args == nodes[i].args || r[i].args == nodes[i].args + ["output"]
  {
    if nodes == [] then []
    else if nodes[0].id == id then [nodes[0].(args := nodes[0].args + ["output"])] + nodes[1..]
    else [nodes[0]] + MarkOutput(nodes[1..], id)
  }

  /** Edges from a DECIDE to the last and, if it is another one, the first node of a branch. */
  function Gate(st: State, decide: Id, t: Trail, condition: string): (r: State)
    ensures Extends(st, r)
  {
    var s1 := if t.last.Some? then CondLink(st, decide, t.last.value, condition) else st;
    if t.first.Some? && t.first != t.last then
      var s2 := CondLink(s1, decide, t.first.value, condition);
      s2
    else s1
  }

  function Rebind(m: map<string, Id>, names: set<string>, id: Id): map<string, Id> {
    map x | x in m.Keys + names :: if x in names then id else m[x]
  }

  ghost predicate OutcomeExtends(st: State, r: Outcome) {
    r.Done? ==> Extends(st, r.st)
  }

  ghost predicate BodyExtends(st: State, r: BodyOutcome) {
    r.Walked? ==> Extends(st, r.st)
  }

  function StmtStep(st: State, s: Stmt): (r: Outcome)
    ensures OutcomeExtends(st, r)
    decreases s, 1
  {
    if st.faults != [] then Stopped(st.faults)
    else
      match s
      case Assign(targets, value) => AssignStep(st, targets, value)
      case AnnAssign(target, annotated) => AnnAssignStep(st, target, annotated)
      case AugAssign(target, value) => AugAssignStep(st, target, value)
      case ExprStmt(value) =>
        var (s1, n) := ToNode(st, value);
        Done(s1, n, n)
      case Return(returned) => ReturnStep(st, returned)
      case If(_, _, _) => IfStep(st, s)
      case For(_, _, _) => ForStep(st, s)
      case With(_, _) => WithStep(st, s)
      case Match(_, _) => MatchStep(st, s)
      case Pass =>
        var (s1, n) := GenId(st);
        Done(s1, n, n)
      case Break =>
        var (s1, n) := Push(st, Act, ["type"]);
        Done(s1, n, n)
      case Continue =>
        var (s1, n) := Push(st, Act, ["type"]);
        Done(s1, n, n)
      case Raise =>
        var (s1, n) := Push(st, Error, ["message"]);
        Done(s1, n, n)
      case Assert(test) =>
        var (s1, decide) := FedBy(st, test, Decide, ["condition"]);
        Done(s1, decide, decide)
      case OtherStmt =>
        var (s1, n) := GenId(AddFault(st, UnsupportedStatement));
        Done(s1, n, n)
  }

  /** A node fed by the value of one expression, as for a condition or an iterable. */
  function FedBy(st: State, e: Expr, op: Opcode, args: seq<string>): (r: (State, Id))
    requires Complete(op, args)
    ensures Extends(st, r.0)
  {
    var (s1, v) := ToNode(st, e);
    var (s2, n) := Push(s1, op, args);
    (Link(s2, v, n), n)
  }

  lemma MarkedNodes(nodes: seq<Node>, id: Id)
    ensures BareSwitch(nodes) ==> BareSwitch(MarkOutput(nodes, id))
    ensures AllComplete(nodes) ==> AllComplete(MarkOutput(nodes, id))
  {
    if BareSwitch(nodes) {
      var i :| 0 <= i < |nodes| && nodes[i].op == Switch && "condition" !in nodes[i].args;
      assert MarkOutput(nodes, id)[i] in MarkOutput(nodes, id);
      assert "condition" != "output";
    }
  }

  function AssignStep(st: State, targets: seq<Expr>, value: Expr): (r: Outcome)
    ensures r.Done? && Extends(st, r.st)
  {
    if |targets| != 1 then Fallback(st, ManyTargets)
    else if !targets[0].Name? then Fallback(st, TargetNotName)
    else
      var (s1, n) := ToNode(st, value);
      MarkedNodes(s1.nodes, n);
      Done(Bind(s1.(nodes := MarkOutput(s1.nodes, n)), targets[0].id, n), n, n)
  }

  function AnnAssignStep(st: State, target: Expr, annotated: Option<Expr>): (r: Outcome)
    ensures r.Done? && Extends(st, r.st)
  {
    if !target.Name? then Fallback(st, TargetNotName)
    else
      var (s1, n) := if annotated.Some? then ToNode(st, annotated.value) else Push(st, Input, ["name"]);
      Done(Bind(s1, target.id, n), n, n)
  }

  function CombineTwo(st: State, left: Id, right: Id): (r: (State, Id))
    ensures Extends(st, r.0)
  {
    var (s1, n) := Push(st, Calc, ["expr", "output"]);
    (Link(Link(s1, left, n), right, n), n)
  }

  function AugAssignStep(st: State, target: Expr, value: Expr): (r: Outcome)
    ensures r.Done? && Extends(st, r.st)
  {
    if !target.Name? then Fallback(st, TargetNotName)
    else
      var (s1, prior) := ResolveVar(st, target.id);
      var (s2, rhs) := ToNode(s1, value);
      var (s3, n) := CombineTwo(s2, prior, rhs);
      Done(Bind(s3, target.id, n), n, n)
  }

  /** Control enters a `return` at its value. */
  function ReturnStep(st: State, returned: Option<Expr>): (r: Outcome)
    ensures r.Done? && Extends(st, r.st)
  {
    if returned.Some? then
      var (s1, n) := FedBy(st, returned.value, Act, ["type"]);
      Done(s1, ToNode(st, returned.value).1, n)
    else
      var (s1, n) := Push(st, Act, ["type"]);
      Done(s1, n, n)
  }

  function WithStep(st: State, s: Stmt): (r: Outcome)
    requires s.With?
    ensures OutcomeExtends(st, r)
    decreases s, 0
  {
    match s.item
    case ParallelItem =>
      var (s1, par) := Push(st, Parallel, []);
      (match ParallelBody(s1, s.body, 0, par)
       case Halted(f) => Stopped(f)
       case Walked(s2, _) => Done(s2, par, par))
    case GroupItem(title) =>
      (match Body(st.(group := Some(title)), s.body, ByData, NoTrail)
       case Halted(f) => Stopped(f)
       case Walked(s1, t) =>
         var (s2, spare) := GenId(s1.(group := st.group));
         Done(s2, if t.first.Some? then t.first.value else spare, if t.last.Some? then t.last.value else spare))
    case OtherItem => Fallback(st, UnsupportedWith)
  }

  function MatchStep(st: State, s: Stmt): (r: Outcome)
    requires s.Match?
    ensures OutcomeExtends(st, r)
    decreases s, 0
  {
    var (s1, switch) := FedBy(st, s.subject, Switch, ["source"]);
    match Cases(s1, s.cases, switch, false)
    case Halted(f) => Stopped(f)
    case Walked(s2, _) => Done(s2, switch, switch)
  }

  /** A body, statement by statement; the control or data edge follows the statement it enters. */
  function Body(st: State, stmts: seq<Stmt>, chain: Chain, t: Trail): (r: BodyOutcome)
    ensures BodyExtends(st, r)
    decreases stmts, 0
  {
    if stmts == [] then Walked(st, t)
    else
      match StmtStep(st, stmts[0])
      case Stopped(f) => Halted(f)
      case Done(s1, first, last) =>
        var s2 := ChainTo(s1, chain, t, first);
        var r := Body(s2, stmts[1..], chain, Advance(t, first, last, IsTerminal(stmts[0])));
        r
  }

  /** Child number `k` of a PARALLEL runs as branch `k`. */
  function ParallelBody(st: State, stmts: seq<Stmt>, k: nat, par: Id): (r: BodyOutcome)
    ensures BodyExtends(st, r)
    decreases stmts, 0
  {
    if stmts == [] then Walked(st, NoTrail)
    else
      match StmtStep(st.(branch := Some(k)), stmts[0])
      case Stopped(f) => Halted(f)
      case Done(s1, first, _) =>
        var s2 := s1.(branch := st.branch);
        var s3 := Link(s2, par, first);
        var r := ParallelBody(s3, stmts[1..], k + 1, par);
        r
  }

  function Cases(st: State, cases: seq<Case>, switch: Id, hasDefault: bool): (r: BodyOutcome)
    ensures BodyExtends(st, r)
    decreases cases, 0
  {
    if cases == [] then Walked(st, NoTrail)
    else
      var c := cases[0];
      if c.pattern.Unsupported? then
        var s1 := AddFault(st, UnsupportedPattern);
        var r := Cases(s1, cases[1..], switch, hasDefault);
        r
      else
        var s1 := if c.pattern.Capture? && hasDefault then AddFault(st, ManyDefaults) else st;
        match Body(s1, c.body, Unchained, NoTrail)
        case Halted(f) => Halted(f)
        case Walked(s2, t) =>
          var s3 := EnterCase(s2, switch, c.pattern, t);
          var r := Cases(s3, cases[1..], switch, hasDefault || c.pattern.Capture?);
          r
  }

  /** The edge of a case enters the first node of the last statement of its body. */
  function EnterCase(st: State, switch: Id, pattern: Pattern, t: Trail): (r: State)
    ensures Extends(st, r)
  {
    if t.lastFirst.None? then st
    else if pattern.Literal? then CondLink(st, switch, t.lastFirst.value, pattern.text)
    else Link(st, switch, t.lastFirst.value)
  }

  function ForStep(st: State, s: Stmt): (r: Outcome)
    requires s.For?
    ensures OutcomeExtends(st, r)
    decreases s, 0
  {
    if !s.target.Name? then Fallback(ToNode(st, s.iter).0, TargetNotName)
    else
      var (s2, loop) := FedBy(st, s.iter, Loop, ["target", "max_iterations"]);
      var s3 := Bind(s2, s.target.id, loop);
      match Body(s3, s.body, ByControl, NoTrail)
      case Halted(f) => Stopped(f)
      case Walked(s4, t) =>
        var s5 := if t.first.Some? then Link(s4, loop, t.first.value) else s4;
        Done(s5, loop, loop)
  }

  function IfStep(st: State, s: Stmt): (r: Outcome)
    requires s.If?
    ensures OutcomeExtends(st, r)
    decreases s, 0
  {
    var (s2, decide) := FedBy(st, s.test, Decide, ["condition"]);
    match Body(s2, s.body, Unchained, NoTrail)
    case Halted(f) => Stopped(f)
    case Walked(s3, t) =>
      var s4 := Gate(s3, decide, t, "true");
      match Body(s4, s.orelse, Unchained, NoTrail)
      case Halted(f) => Stopped(f)
      case Walked(s5, e) =>
        var s6 := Gate(s5, decide, e, "false");
        if AllTerminal(s.body) && AllTerminal(s.orelse) then Done(s6, decide, decide)
        else
          var names := (s3.varMap.Keys - s2.varMap.Keys) + (s5.varMap.Keys - s4.varMap.Keys);
          var (s7, merge) := Join(s6, decide, s, t, e, names);
          Done(s7, decide, merge)
  }

  /** The MERGE of an `if`: fed by the branches that fall through and, without an `else`,
      by the DECIDE itself. Variables first written in a branch now live here. */
  function Join(st: State, decide: Id, s: Stmt, t: Trail, e: Trail, names: set<string>): (r: (State, Id))
    requires s.If?
    ensures Extends(st, r.0)
  {
    var (s1, merge) := Push(st, Merge, []);
    var s2 := JoinEdges(s1, decide, s, t, e, merge);
    (s2.(varMap := Rebind(s2.varMap, names, merge)), merge)
  }

  function JoinEdges(st: State, decide: Id, s: Stmt, t: Trail, e: Trail, merge: Id): (r: State)
    requires s.If?
    ensures Extends(st, r)
  {
    var s2 := if t.last.Some? && !AllTerminal(s.body) then Link(st, t.last.value, merge) else st;
    var s3 := if e.last.Some? && !AllTerminal(s.orelse) then Link(s2, e.last.value, merge) else s2;
    if s.orelse == [] then CondLink(s3, decide, merge, "false") else s3
  }

  // ── Modules ─────────────────────────────────────────────────────

  function MetaCount(m: seq<TopLevel>): nat {
    if m == [] then 0 else MetaCount(m[..|m| - 1]) + if m[|m| - 1].Meta? then 1 else 0
  }

  function FindGraph(m: seq<TopLevel>): Option<TopLevel> {
    if m == [] then None
    else if m[0].FunctionDef? && m[0].name == "graph" then Some(m[0])
    else FindGraph(m[1..])
  }

  function Params(st: State, names: seq<string>): (r: State)
    ensures Extends(st, r)
    decreases names
  {
    if names == [] then st
    else
      var (s1, n) := Push(st, Input, ["name"]);
      var s2 := Bind(s1, names[0], n);
      var s3 := Params(s2, names[1..]);
      s3
  }

  function ModuleStep(m: seq<TopLevel>): (r: Result<State, seq<Fault>>)
    ensures r.Ok? ==> Extends(Initial, r.value)
  {
    if MetaCount(m) > 1 then Err([ManyMetas])
    else
      match FindGraph(m)
      case None => Err([NoGraphFunction])
      case Some(f) =>
        assert f.FunctionDef? by { FindGraphFinds(m); }
        var s1 := Params(Initial, f.args);
        var s2 := Params(s1, f.posonlyargs);
        match Body(s2, f.body, ByControl, NoTrail)
        case Halted(faults) => Err(faults)
        case Walked(s3, _) =>
          Ok(s3)
  }

  lemma FindGraphFinds(m: seq<TopLevel>)
    ensures FindGraph(m).Some? ==> FindGraph(m).value.FunctionDef?
  {
  }
}
