/** Where in a program the nodes of its plan come from: the statements walked, the states they are walked
    in, and what each of them leaves in the plan for good. */
module TransformSites {
  import opened Wrappers
  import opened Ast
  import opened Plan
  import opened TransformSpec

  /** A statement and the state in which its walk starts. */
  datatype Walk = Walk(st: State, stmt: Stmt)

  // ── The statements that are walked ──────────────────────────────

  ghost function Walks(st: State, s: Stmt): set<Walk>
    decreases s, 1
  {
    {Walk(st, s)} + Inside(st, s)
  }

  ghost function Inside(st: State, s: Stmt): set<Walk>
    decreases s, 0
  {
    match s
    case If(test, body, orelse) =>
      var (s2, decide) := FedBy(st, test, Decide, ["condition"]);
      var t := Body(s2, body, Unchained, NoTrail);
      BodyWalks(s2, body, Unchained, NoTrail) +
      if t.Walked? then BodyWalks(Gate(t.st, decide, t.trail, "true"), orelse, Unchained, NoTrail) else {}
    case For(target, iter, body) =>
      if target.Name? then
        var (s2, loop) := FedBy(st, iter, Loop, ["target", "max_iterations"]);
        BodyWalks(Bind(s2, target.id, loop), body, ByControl, NoTrail)
      else {}
    case With(item, body) =>
      (match item
       case ParallelItem => ChildWalks(Push(st, Parallel, []).0, body, 0, st.nextId)
       case GroupItem(title) => BodyWalks(st.(group := Some(title)), body, ByData, NoTrail)
       case OtherItem => {})
    case Match(subject, cases) =>
      var (s1, switch) := FedBy(st, subject, Switch, ["source"]);
      CaseWalks(s1, cases, switch, false)
    case _ => {}
  }

  ghost function BodyWalks(st: State, stmts: seq<Stmt>, chain: Chain, t: Trail): set<Walk>
    decreases stmts, 0
  {
    if stmts == [] then {}
    else
      var r := StmtStep(st, stmts[0]);
      if r.Stopped? then {}
      else
        var next := Advance(t, r.first, r.last, IsTerminal(stmts[0]));
        Walks(st, stmts[0]) + BodyWalks(ChainTo(r.st, chain, t, r.first), stmts[1..], chain, next)
  }

  ghost function ChildWalks(st: State, stmts: seq<Stmt>, k: nat, par: Id): set<Walk>
    decreases stmts, 0
  {
    if stmts == [] then {}
    else
      var s0 := st.(branch := Some(k));
      var r := StmtStep(s0, stmts[0]);
      if r.Stopped? then {}
      else Walks(s0, stmts[0]) + ChildWalks(Link(r.st.(branch := st.branch), par, r.first), stmts[1..], k + 1, par)
  }

  ghost function CaseWalks(st: State, cases: seq<Case>, switch: Id, hasDefault: bool): set<Walk>
    decreases cases, 0
  {
    if cases == [] then {}
    else
      var c := cases[0];
      if c.pattern.Unsupported? then CaseWalks(AddFault(st, UnsupportedPattern), cases[1..], switch, hasDefault)
      else
        var s1 := if c.pattern.Capture? && hasDefault then AddFault(st, ManyDefaults) else st;
        var r := Body(s1, c.body, Unchained, NoTrail);
        BodyWalks(s1, c.body, Unchained, NoTrail) +
        if r.Halted? then {}
        else CaseWalks(EnterCase(r.st, switch, c.pattern, r.trail), cases[1..], switch, hasDefault || c.pattern.Capture?)
  }

  ghost function ModuleWalks(m: seq<TopLevel>): set<Walk> {
    match FindGraph(m)
    case None => {}
    case Some(f) =>
      FindGraphFinds(m);
      BodyWalks(Params(Params(Initial, f.args), f.posonlyargs), f.body, ByControl, NoTrail)
  }

  // ── What a stretch of the walk leaves in the plan ───────────────

  function End(w: Walk): Outcome {
    StmtStep(w.st, w.stmt)
  }

  /** Nodes keep everything but arguments, edges stay; new nodes have new ids, and new edges enter
      ids in use. */
  ghost predicate Kept(a: State, b: State) {
    && |a.nodes| <= |b.nodes| && a.edges <= b.edges && a.nextId <= b.nextId
    && (forall k :: 0 <= k < |a.nodes| ==> b.nodes[k] == a.nodes[k].(args := b.nodes[k].args))
    && (forall k :: |a.nodes| <= k < |b.nodes| ==> a.nextId <= b.nodes[k].id < b.nextId)
    && (forall k :: |a.edges| <= k < |b.edges| ==> b.edges[k].to < b.nextId)
  }

  ghost predicate SameLabels(a: State, b: State) {
    b.branch == a.branch && b.group == a.group
  }

  /** Which label the nodes of a stretch may have from further in. */
  datatype Free = Neither | AnyBranch | AnyGroup

  predicate Opens(s: Stmt, op: Opcode) {
    match op
    case Decide => s.If? || s.Assert?
    case Switch => s.Match?
    case Loop => s.For?
    case Parallel => s.With? && s.item.ParallelItem?
    case _ => true
  }

  predicate IsControl(op: Opcode) {
    op == Decide || op == Switch || op == Loop || op == Parallel
  }

  ghost predicate OpenedBy(n: Node, w: Walk) {
    Opens(w.stmt, n.op) && End(w).Done? && End(w).first == n.id
  }

  /** The node was numbered during the walk, behind the one that the statement starts with. */
  ghost predicate Within(w: Walk, id: Id) {
    End(w).Done? && w.st.nextId < id < End(w).st.nextId
  }

  ghost predicate InParallel(ws: set<Walk>, id: Id) {
    exists w :: w in ws && w.stmt.With? && w.stmt.item.ParallelItem? && Within(w, id)
  }

  ghost predicate InGroup(ws: set<Walk>, id: Id) {
    exists w :: w in ws && w.stmt.With? && w.stmt.item.GroupItem? && End(w).Done? && w.st.nextId <= id < End(w).st.nextId
  }

  /** A branching node has its statement among those walked, and a node is labelled as around the stretch
      unless a PARALLEL or GROUP inside took it over. */
  ghost predicate Accounted(n: Node, a: State, ws: set<Walk>, open: set<Id>, free: Free) {
    && (IsControl(n.op) && n.id !in open ==> exists w :: w in ws && OpenedBy(n, w))
    && (n.branchId == a.branch || free == AnyBranch || InParallel(ws, n.id))
    && (n.group == a.group || free == AnyGroup || InGroup(ws, n.id))
  }

  /** The condition edges from `from` on leave ids between `lo` and `hi`, or those in `open`. */
  ghost predicate Conditions(b: State, from: nat, lo: Id, hi: Id, open: set<Id>) {
    forall k :: from <= k < |b.edges| && b.edges[k].condition.Some? ==> lo <= b.edges[k].from < hi || b.edges[k].from in open
  }

  /** The walk lies in the stretch; before it no condition edge left a node yet to come, and after it none
      leaves one of its own. */
  ghost predicate Lies(w: Walk, a: State, b: State) {
    && End(w).Done? && Kept(a, w.st) && Kept(End(w).st, b)
    && (forall k :: |a.edges| <= k < |w.st.edges| && w.st.edges[k].condition.Some? ==> w.st.edges[k].from < w.st.nextId)
    && (forall k :: |End(w).st.edges| <= k < |b.edges| && b.edges[k].condition.Some? ==>
          b.edges[k].from < w.st.nextId || b.edges[k].from >= End(w).st.nextId)
  }

  ghost predicate Stretch(a: State, b: State, ws: set<Walk>, open: set<Id>, free: Free) {
    && Kept(a, b) && SameLabels(a, b)
    && (forall k :: |a.nodes| <= k < |b.nodes| ==> Accounted(b.nodes[k], a, ws, open, free))
    && Conditions(b, |a.edges|, a.nextId, b.nextId, open)
    && (forall w :: w in ws ==> Lies(w, a, b))
  }

  lemma KeptThen(a: State, b: State, c: State)
    requires Kept(a, b) && Kept(b, c)
    ensures Kept(a, c)
  {
    forall k | |a.edges| <= k < |c.edges|
      ensures c.edges[k].to < c.nextId
    {
      if k < |b.edges| {
        assert c.edges[k] == b.edges[k];
      }
    }
  }

  lemma AccountedMore(n: Node, m: Node, a: State, b: State, ws: set<Walk>, vs: set<Walk>, open: set<Id>, more: set<Id>, free: Free)
    requires Accounted(n, a, ws, open, free) && m == n.(args := m.args) && SameLabels(a, b) && ws <= vs && open <= more
    ensures Accounted(m, b, vs, more, free)
  {
    if IsControl(n.op) && n.id !in open {
      var w :| w in ws && OpenedBy(n, w);
      assert w in vs && OpenedBy(m, w);
    }
    if InParallel(ws, n.id) {
      assert InParallel(vs, m.id);
    }
    if InGroup(ws, n.id) {
      assert InGroup(vs, m.id);
    }
  }

  lemma LiesLonger(w: Walk, a: State, b: State, c: State, open: set<Id>)
    requires Lies(w, a, b) && Kept(b, c) && Conditions(c, |b.edges|, b.nextId, c.nextId, open)
    requires forall id :: id in open ==> id < w.st.nextId
    ensures Lies(w, a, c)
  {
    KeptThen(End(w).st, b, c);
    forall k | |End(w).st.edges| <= k < |c.edges| && c.edges[k].condition.Some?
      ensures c.edges[k].from < w.st.nextId || c.edges[k].from >= End(w).st.nextId
    {
      if k < |b.edges| {
        assert c.edges[k] == b.edges[k];
      }
    }
  }

  lemma LiesLater(w: Walk, a: State, b: State, c: State, open: set<Id>)
    requires Lies(w, b, c) && Kept(a, b) && Conditions(b, |a.edges|, a.nextId, b.nextId, open)
    requires forall id :: id in open ==> id < b.nextId
    ensures Lies(w, a, c)
  {
    KeptThen(a, b, w.st);
    forall k | |a.edges| <= k < |w.st.edges| && w.st.edges[k].condition.Some?
      ensures w.st.edges[k].from < w.st.nextId
    {
      if k < |b.edges| {
        assert w.st.edges[k] == b.edges[k];
      }
    }
  }

  lemma StretchThen(a: State, b: State, c: State, ws: set<Walk>, vs: set<Walk>, open: set<Id>, more: set<Id>, free: Free)
    requires Stretch(a, b, ws, open, free) && Stretch(b, c, vs, more, free)
    requires forall id :: id in open ==> id < b.nextId
    requires ws == {} || forall id :: id in more ==> id < a.nextId
    ensures Stretch(a, c, ws + vs, open + more, free)
  {
    hide Lies, Accounted;
    KeptThen(a, b, c);
    forall k | |a.nodes| <= k < |c.nodes|
      ensures Accounted(c.nodes[k], a, ws + vs, open + more, free)
    {
      if k < |b.nodes| {
        AccountedMore(b.nodes[k], c.nodes[k], a, a, ws, ws + vs, open, open + more, free);
      } else {
        AccountedMore(c.nodes[k], c.nodes[k], b, a, vs, ws + vs, more, open + more, free);
      }
    }
    forall k | |a.edges| <= k < |c.edges| && c.edges[k].condition.Some?
      ensures a.nextId <= c.edges[k].from < c.nextId || c.edges[k].from in open + more
    {
      if k < |b.edges| {
        assert c.edges[k] == b.edges[k];
      }
    }
    forall w | w in ws + vs
      ensures Lies(w, a, c)
    {
      if w in ws {
        LiesFrom(w, a, b);
        LiesLonger(w, a, b, c, more);
      } else {
        LiesLater(w, a, b, c, open);
      }
    }
  }

  lemma LiesFrom(w: Walk, a: State, b: State)
    requires Lies(w, a, b)
    ensures End(w).Done? && a.nextId <= w.st.nextId
  {
  }

  // ── Expressions ─────────────────────────────────────────────────

  /** No branching node and no condition edge is new, and the labels are those around the stretch. */
  ghost predicate Plain(a: State, b: State) {
    && Kept(a, b) && SameLabels(a, b)
    && (forall k :: |a.nodes| <= k < |b.nodes| ==>
          !IsControl(b.nodes[k].op) && b.nodes[k].branchId == a.branch && b.nodes[k].group == a.group)
    && (forall k :: |a.edges| <= k < |b.edges| ==> b.edges[k].condition.None?)
  }

  lemma PlainSelf(st: State)
    ensures Plain(st, st)
  {
  }

  lemma PlainThen(a: State, b: State, c: State)
    requires Plain(a, b) && Plain(b, c)
    ensures Plain(a, c)
  {
    KeptThen(a, b, c);
    forall k | |a.edges| <= k < |c.edges|
      ensures c.edges[k].condition.None?
    {
      if k < |b.edges| {
        assert c.edges[k] == b.edges[k];
      }
    }
    forall k | |a.nodes| <= k < |c.nodes|
      ensures !IsControl(c.nodes[k].op) && c.nodes[k].branchId == a.branch && c.nodes[k].group == a.group
    {
      if k < |b.nodes| {
        assert c.nodes[k] == b.nodes[k].(args := c.nodes[k].args);
      }
    }
  }

  lemma PlainStretch(a: State, b: State, free: Free)
    requires Plain(a, b)
    ensures Stretch(a, b, {}, {}, free)
  {
  }

  /** Faults, variables and unused ids. */
  lemma AsidePlain(a: State, b: State)
    requires b.nodes == a.nodes && b.edges == a.edges && a.nextId <= b.nextId && SameLabels(a, b)
    ensures Plain(a, b)
  {
  }

  lemma PushPlain(st: State, op: Opcode, args: seq<string>)
    requires Complete(op, args) && !IsControl(op)
    ensures Plain(st, Push(st, op, args).0)
  {
  }

  lemma LinkPlain(st: State, from: Id, to: Id)
    requires to < st.nextId
    ensures Plain(st, Link(st, from, to)) && Plain(st, ControlLink(st, from, to))
  {
  }

  lemma PlainNext(a: State, b: State)
    requires Plain(a, b)
    ensures a.nextId <= b.nextId
  {
  }

  lemma {:induction false} WirePlain(st: State, e: Expr, target: Id)
    requires target < st.nextId
    ensures Plain(st, WireDeps(st, e, target))
    decreases e, 1
  {
    hide Plain;
    PlainSelf(st);
    match e
    case Name(id) =>
      if id in st.varMap {
        LinkPlain(st, st.varMap[id], target);
      }
    case Attribute(value, _) => WirePlain(st, value, target);
    case Subscript(value, slice) =>
      var s1 := WireDeps(st, value, target);
      WirePlain(st, value, target);
      PlainNext(st, s1);
      WirePlain(s1, slice, target);
      PlainThen(st, s1, WireDeps(s1, slice, target));
    case Call(func, args, keywords) =>
      var s1 := WireDeps(st, func, target);
      var s2 := WireAll(s1, args, target);
      WirePlain(st, func, target);
      PlainNext(st, s1);
      WireAllPlain(s1, args, target);
      PlainNext(s1, s2);
      WireKeywordsPlain(s2, keywords, target);
      PlainThen(st, s1, s2);
      PlainThen(st, s2, WireKeywords(s2, keywords, target));
    case Compound(parts) => WireAllPlain(st, parts, target);
    case Leaf =>
  }

  lemma {:induction false} WireAllPlain(st: State, es: seq<Expr>, target: Id)
    requires target < st.nextId
    ensures Plain(st, WireAll(st, es, target))
    decreases es, 0
  {
    hide Plain;
    PlainSelf(st);
    if es != [] {
      var s1 := WireDeps(st, es[0], target);
      WirePlain(st, es[0], target);
      PlainNext(st, s1);
      WireAllPlain(s1, es[1..], target);
      PlainThen(st, s1, WireAll(s1, es[1..], target));
    }
  }

  lemma {:induction false} WireKeywordsPlain(st: State, ks: seq<Keyword>, target: Id)
    requires target < st.nextId
    ensures Plain(st, WireKeywords(st, ks, target))
    decreases ks, 0
  {
    hide Plain;
    PlainSelf(st);
    if ks != [] {
      var s1 := WireDeps(st, ks[0].value, target);
      WirePlain(st, ks[0].value, target);
      PlainNext(st, s1);
      WireKeywordsPlain(s1, ks[1..], target);
      PlainThen(st, s1, WireKeywords(s1, ks[1..], target));
    }
  }

  lemma {:induction false} LinkAllPlain(st: State, froms: seq<Id>, to: Id)
    requires to < st.nextId
    ensures Plain(st, LinkAll(st, froms, to))
    decreases froms
  {
    hide Plain;
    PlainSelf(st);
    if froms != [] {
      var s1 := Link(st, froms[0], to);
      LinkPlain(st, froms[0], to);
      LinkAllPlain(s1, froms[1..], to);
      PlainThen(st, s1, LinkAll(s1, froms[1..], to));
    }
  }

  /** An expression adds plain nodes and edges, and its own node is one of the new ids. */
  lemma {:induction false} ExprPlain(st: State, e: Expr)
    ensures var (r, n) := ToNode(st, e); Plain(st, r) && st.nextId <= n < r.nextId
    decreases e, 1
  {
    hide Plain, IsBuiltin;
    match e
    case Call(_, _, _) => CallPlain(st, e);
    case _ =>
      var s1 := Push(st, Calc, ["expr"]).0;
      PushPlain(st, Calc, ["expr"]);
      WirePlain(s1, e, st.nextId);
      PlainThen(st, s1, WireDeps(s1, e, st.nextId));
      PlainNext(s1, WireDeps(s1, e, st.nextId));
  }

  lemma {:induction false} CallPlain(st: State, e: Expr)
    requires e.Call?
    ensures var (r, n) := ToNode(st, e); Plain(st, r) && st.nextId <= n < r.nextId
    decreases e, 0, 1
  {
    hide Plain, IsBuiltin;
    match Callee(e.func)
    case None => AsidePlain(st, ToNode(st, e).0);
    case Some(name) =>
      if name == "call" || name == "act" {
        ArgumentsPlain(st, e, Opcode.Call, ["type", "target"] + KeywordNames(e.keywords), true);
      } else if name == "sleep" {
        ArgumentsPlain(st, e, Wait, ["duration_secs"], false);
      } else if IsBuiltin(name) {
        var (s1, ids) := ToNodes(st, e.args);
        var (s2, n) := Push(s1, Calc, ["expr"]);
        ToNodesPlain(st, e.args);
        PlainNext(st, s1);
        PushPlain(s1, Calc, ["expr"]);
        LinkAllPlain(s2, ids, n);
        PlainThen(st, s1, s2);
        PlainThen(st, s2, LinkAll(s2, ids, n));
        PlainNext(s2, LinkAll(s2, ids, n));
      } else {
        ArgumentsPlain(st, e, Calc, ["expr"], true);
      }
  }

  lemma {:induction false} ArgumentsPlain(st: State, e: Expr, op: Opcode, names: seq<string>, withKeywords: bool)
    requires e.Call? && Complete(op, names) && !IsControl(op)
    ensures var s2 := Feed(Push(st, op, names).0, e.args, st.nextId);
      var r := if withKeywords then FeedKeywords(s2, e.keywords, st.nextId) else s2;
      Plain(st, r) && st.nextId < r.nextId
    decreases e, 0, 0
  {
    hide Plain;
    var n := st.nextId;
    var s1 := Push(st, op, names).0;
    var s2 := Feed(s1, e.args, n);
    PushPlain(st, op, names);
    FeedPlain(s1, e.args, n);
    PlainThen(st, s1, s2);
    PlainNext(s1, s2);
    if withKeywords {
      FeedKeywordsPlain(s2, e.keywords, n);
      PlainThen(st, s2, FeedKeywords(s2, e.keywords, n));
      PlainNext(s2, FeedKeywords(s2, e.keywords, n));
    }
  }

  lemma {:induction false} FeedPlain(st: State, es: seq<Expr>, target: Id)
    requires target < st.nextId
    ensures Plain(st, Feed(st, es, target))
    decreases es, 0
  {
    hide Plain;
    PlainSelf(st);
    if es != [] {
      var (s1, a) := ToNode(st, es[0]);
      var s2 := Link(s1, a, target);
      ExprPlain(st, es[0]);
      LinkPlain(s1, a, target);
      PlainThen(st, s1, s2);
      FeedPlain(s2, es[1..], target);
      PlainThen(st, s2, Feed(s2, es[1..], target));
    }
  }

  lemma {:induction false} FeedKeywordsPlain(st: State, ks: seq<Keyword>, target: Id)
    requires target < st.nextId
    ensures Plain(st, FeedKeywords(st, ks, target))
    decreases ks, 0
  {
    hide Plain;
    PlainSelf(st);
    if ks != [] {
      var (s1, a) := ToNode(st, ks[0].value);
      var s2 := Link(s1, a, target);
      ExprPlain(st, ks[0].value);
      LinkPlain(s1, a, target);
      PlainThen(st, s1, s2);
      FeedKeywordsPlain(s2, ks[1..], target);
      PlainThen(st, s2, FeedKeywords(s2, ks[1..], target));
    }
  }

  lemma {:induction false} ToNodesPlain(st: State, es: seq<Expr>)
    ensures Plain(st, ToNodes(st, es).0)
    decreases es, 0
  {
    hide Plain;
    PlainSelf(st);
    if es != [] {
      var s1 := ToNode(st, es[0]).0;
      ExprPlain(st, es[0]);
      ToNodesPlain(s1, es[1..]);
      PlainThen(st, s1, ToNodes(s1, es[1..]).0);
    }
  }

  // ── Statements ──────────────────────────────────────────────────

  /** What is said of every statement: its nodes are accounted for by the statements walked in it, and control
      enters and leaves it at ids of its own. */
  ghost predicate StmtSited(st: State, s: Stmt, r: Outcome) {
    r.Done? ==> Stretch(st, r.st, Walks(st, s), {}, Neither) && Owned(st, r)
  }

  ghost predicate Owned(st: State, r: Outcome)
    requires r.Done?
  {
    st.nextId <= r.first < r.st.nextId && st.nextId <= r.last < r.st.nextId
  }

  /** The only new node of that id is one with this opcode and the labels around. */
  ghost predicate NodeIs(a: State, b: State, id: Id, op: Opcode) {
    && (exists k :: |a.nodes| <= k < |b.nodes| && b.nodes[k].id == id)
    && (forall k :: |a.nodes| <= k < |b.nodes| && b.nodes[k].id == id ==>
          b.nodes[k].op == op && b.nodes[k].branchId == a.branch && b.nodes[k].group == a.group)
  }

  /** The statement itself is walked: it accounts for its own branching node, the one still open, and for
      the labels that nodes inside have from it. */
  lemma Closed(st: State, s: Stmt, r: Outcome, ws: set<Walk>, open: set<Id>, free: Free, op: Opcode)
    requires r == StmtStep(st, s) && r.Done? && Owned(st, r) && Stretch(st, r.st, ws, open, free)
    requires open == {} || (open == {r.first} && NodeIs(st, r.st, r.first, op) && Opens(s, op))
    requires free == AnyBranch ==> s.With? && s.item.ParallelItem? && open == {st.nextId}
    requires free == AnyGroup ==> s.With? && s.item.GroupItem?
    ensures Stretch(st, r.st, {Walk(st, s)} + ws, {}, Neither)
  {
    hide Lies, NodeIs, Accounted;
    var w, all := Walk(st, s), {Walk(st, s)} + ws;
    forall k | |st.nodes| <= k < |r.st.nodes|
      ensures Accounted(r.st.nodes[k], st, all, {}, Neither)
    {
      if open != {} && r.st.nodes[k].id == r.first {
        NodeIsSo(st, r.st, r.first, op, k);
      }
      AccountedByAll(r.st.nodes[k], st, s, r, ws, open, free);
    }
    LiesItself(st, s);
  }

  lemma NodeIsSo(a: State, b: State, id: Id, op: Opcode, k: nat)
    requires NodeIs(a, b, id, op) && |a.nodes| <= k < |b.nodes| && b.nodes[k].id == id
    ensures b.nodes[k].op == op && b.nodes[k].branchId == a.branch && b.nodes[k].group == a.group
  {
  }

  lemma LiesItself(st: State, s: Stmt)
    requires StmtStep(st, s).Done? && Kept(st, StmtStep(st, s).st)
    ensures Lies(Walk(st, s), st, StmtStep(st, s).st)
  {
  }

  lemma AccountedByAll(n: Node, st: State, s: Stmt, r: Outcome, ws: set<Walk>, open: set<Id>, free: Free)
    requires r == StmtStep(st, s) && r.Done? && st.nextId <= n.id < r.st.nextId && Accounted(n, st, ws, open, free)
    requires n.id in open ==> n.id == r.first && Opens(s, n.op)
    requires free == AnyBranch ==> s.With? && s.item.ParallelItem? && (n.id == st.nextId ==> n.branchId == st.branch)
    requires free == AnyGroup ==> s.With? && s.item.GroupItem?
    ensures Accounted(n, st, {Walk(st, s)} + ws, {}, Neither)
  {
    var w, all := Walk(st, s), {Walk(st, s)} + ws;
    AccountedMore(n, n, st, st, ws, all, open, open, free);
    if IsControl(n.op) && n.id in open {
      assert w in all && OpenedBy(n, w);
    }
    if free == AnyBranch && n.branchId != st.branch {
      assert w in all && Within(w, n.id);
    }
    if free == AnyGroup {
      assert w in all;
    }
  }

  lemma FallbackPlain(st: State, f: Fault)
    ensures var r := Fallback(st, f); Plain(st, r.st) && Owned(st, r)
  {
  }

  lemma FedByPlain(st: State, e: Expr, op: Opcode, args: seq<string>)
    requires Complete(op, args) && !IsControl(op)
    ensures var (r, n) := TransformSpec.FedBy(st, e, op, args); Plain(st, r) && st.nextId <= n < r.nextId
  {
    hide Plain;
    var (s1, v) := ToNode(st, e);
    var (s2, n) := Push(s1, op, args);
    ExprPlain(st, e);
    PlainNext(st, s1);
    PushPlain(s1, op, args);
    LinkPlain(s2, v, n);
    PlainThen(st, s1, s2);
    PlainThen(st, s2, Link(s2, v, n));
  }

  /** A branching node that is fed by an expression; its statement is still open. */
  lemma FedByOpen(st: State, e: Expr, op: Opcode, args: seq<string>, free: Free)
    requires Complete(op, args)
    ensures var (r, n) := TransformSpec.FedBy(st, e, op, args);
      && Stretch(st, r, {}, {n}, free) && st.nextId <= n && r.nextId == n + 1 && NodeIs(st, r, n, op) && NoConditions(st, r)
  {
    hide Plain, Stretch, NodeIs, NoConditions;
    var (s1, v) := ToNode(st, e);
    var (s2, n) := Push(s1, op, args);
    ExprPlain(st, e);
    PlainNext(st, s1);
    OneOpen(s1, op, args, free);
    LinkPlain(s2, v, n);
    PlainStretches(st, s1, s2, {}, {n}, free);
    StretchPlain(st, s2, Link(s2, v, n), {}, {n}, free);
    NodeIsBehind(st, s1, s2, n, op);
    KeptPlain(st, s1);
    KeptPlain(s2, Link(s2, v, n));
    StretchKept(st, s2, {}, {n}, free);
    NodeIsLater(st, s2, Link(s2, v, n), n, op);
    FedByNoConditions(st, e, op, args);
  }

  lemma OneOpen(st: State, op: Opcode, args: seq<string>, free: Free)
    requires Complete(op, args)
    ensures var (r, n) := Push(st, op, args); Stretch(st, r, {}, {n}, free) && NodeIs(st, r, n, op)
  {
    var r := Push(st, op, args).0;
    assert r.nodes[|st.nodes|].id == st.nextId;
  }

  lemma NodeIsBehind(a: State, b: State, c: State, id: Id, op: Opcode)
    requires Plain(a, b) && NodeIs(b, c, id, op) && b.nextId <= id && Kept(b, c)
    ensures NodeIs(a, c, id, op)
  {
    forall j | |a.nodes| <= j < |b.nodes|
      ensures c.nodes[j].id < id
    {
      assert c.nodes[j] == b.nodes[j].(args := c.nodes[j].args);
    }
  }

  lemma FedByNoConditions(st: State, e: Expr, op: Opcode, args: seq<string>)
    requires Complete(op, args)
    ensures NoConditions(st, TransformSpec.FedBy(st, e, op, args).0)
  {
    var s1 := ToNode(st, e).0;
    var r := TransformSpec.FedBy(st, e, op, args).0;
    ExprPlain(st, e);
    forall k | |st.edges| <= k < |r.edges|
      ensures r.edges[k].condition.None?
    {
      assert k < |s1.edges| ==> r.edges[k] == s1.edges[k];
    }
  }

  ghost predicate NoConditions(a: State, b: State) {
    a.edges <= b.edges && forall k :: |a.edges| <= k < |b.edges| ==> b.edges[k].condition.None?
  }

  lemma NodeIsLater(a: State, b: State, c: State, id: Id, op: Opcode)
    requires NodeIs(a, b, id, op) && Kept(a, b) && Kept(b, c) && id < b.nextId
    ensures NodeIs(a, c, id, op)
  {
    var k :| |a.nodes| <= k < |b.nodes| && b.nodes[k].id == id;
    assert c.nodes[k].id == id;
    forall j | |a.nodes| <= j < |c.nodes| && c.nodes[j].id == id
      ensures c.nodes[j].op == op && c.nodes[j].branchId == a.branch && c.nodes[j].group == a.group
    {
      assert j < |b.nodes| ==> c.nodes[j] == b.nodes[j].(args := c.nodes[j].args);
    }
  }

  lemma StretchKept(a: State, b: State, ws: set<Walk>, open: set<Id>, free: Free)
    requires Stretch(a, b, ws, open, free)
    ensures Kept(a, b) && SameLabels(a, b) && a.nextId <= b.nextId
  {
  }

  lemma StretchPlain(a: State, b: State, c: State, ws: set<Walk>, open: set<Id>, free: Free)
    requires Stretch(a, b, ws, open, free) && Plain(b, c) && forall id :: id in open ==> id < b.nextId
    ensures Stretch(a, c, ws, open, free)
  {
    hide Accounted, Lies, Conditions;
    PlainStretch(b, c, free);
    StretchThen(a, b, c, ws, {}, open, {}, free);
    assert ws + {} == ws && open + {} == open;
  }

  lemma PlainStretches(a: State, b: State, c: State, ws: set<Walk>, open: set<Id>, free: Free)
    requires Plain(a, b) && Stretch(b, c, ws, open, free)
    ensures Stretch(a, c, ws, open, free)
  {
    hide Accounted, Lies, Conditions;
    PlainStretch(a, b, free);
    StretchThen(a, b, c, {}, ws, {}, open, free);
    assert {} + ws == ws && {} + open == open;
  }

  lemma StretchOn(a: State, b: State, c: State, ws: set<Walk>, vs: set<Walk>, open: set<Id>, free: Free)
    requires Stretch(a, b, ws, open, free) && Stretch(b, c, vs, {}, free) && forall id :: id in open ==> id < b.nextId
    ensures Stretch(a, c, ws + vs, open, free)
  {
    hide Accounted, Lies, Conditions;
    StretchThen(a, b, c, ws, vs, open, {}, free);
    assert open + {} == open;
  }

  /** Of a stretch without open ends one may ask less. */
  lemma Freed(a: State, b: State, ws: set<Walk>, free: Free)
    requires Stretch(a, b, ws, {}, Neither)
    ensures Stretch(a, b, ws, {}, free)
  {
    forall k | |a.nodes| <= k < |b.nodes|
      ensures Accounted(b.nodes[k], a, ws, {}, free)
    {
      assert Accounted(b.nodes[k], a, ws, {}, Neither);
    }
  }

  lemma {:induction false} StmtSites(st: State, s: Stmt)
    ensures StmtSited(st, s, StmtStep(st, s))
    decreases s, 2
  {
    hide Stretch, Plain;
    if st.faults != [] {
      return;
    }
    match s
    case If(_, _, _) => IfSites(st, s);
    case For(_, _, _) => ForSites(st, s);
    case With(_, _) => WithSites(st, s);
    case Match(_, _) => MatchSites(st, s);
    case Assert(test) =>
      FedByOpen(st, test, Decide, ["condition"], Neither);
      var (r, n) := TransformSpec.FedBy(st, test, Decide, ["condition"]);
      StretchKept(st, r, {}, {n}, Neither);
      Closed(st, s, StmtStep(st, s), {}, {n}, Neither, Decide);
      assert {Walk(st, s)} + {} == Walks(st, s);
    case _ => SimpleSites(st, s);
  }

  lemma PlainClosed(st: State, s: Stmt)
    requires StmtStep(st, s).Done? && Inside(st, s) == {} && Plain(st, StmtStep(st, s).st) && Owned(st, StmtStep(st, s))
    ensures StmtSited(st, s, StmtStep(st, s))
  {
    var r := StmtStep(st, s);
    PlainStretch(st, r.st, Neither);
    Closed(st, s, r, {}, {}, Neither, Merge);
  }

  lemma SimpleSites(st: State, s: Stmt)
    requires !(s.If? || s.For? || s.With? || s.Match? || s.Assert?) && st.faults == []
    ensures StmtSited(st, s, StmtStep(st, s))
  {
    hide Plain, Stretch;
    match s {
      case Assign(targets, value) =>
        if |targets| != 1 || !targets[0].Name? {
          FallbackPlain(st, if |targets| != 1 then ManyTargets else TargetNotName);
        } else {
          ExprPlain(st, value);
          MarkPlain(st, value, targets[0].id);
        }
      case AnnAssign(target, annotated) =>
        if !target.Name? {
          FallbackPlain(st, TargetNotName);
        } else if annotated.Some? {
          ExprPlain(st, annotated.value);
          BindPlain(st, ToNode(st, annotated.value).0, target.id, ToNode(st, annotated.value).1);
        } else {
          PushPlain(st, Input, ["name"]);
          BindPlain(st, Push(st, Input, ["name"]).0, target.id, st.nextId);
        }
      case AugAssign(target, value) =>
        if !target.Name? {
          FallbackPlain(st, TargetNotName);
        } else {
          AugPlain(st, target.id, value);
        }
      case ExprStmt(value) => ExprPlain(st, value);
      case Return(returned) =>
        if returned.Some? {
          FedByPlain(st, returned.value, Act, ["type"]);
          ExprPlain(st, returned.value);
          PlainNext(ToNode(st, returned.value).0, StmtStep(st, s).st) by {
            FedByAfter(st, returned.value, Act, ["type"]);
          }
        } else {
          PushPlain(st, Act, ["type"]);
        }
      case Raise => PushPlain(st, Error, ["message"]);
      case Pass => AsidePlain(st, GenId(st).0);
      case OtherStmt => AsidePlain(st, GenId(AddFault(st, UnsupportedStatement)).0);
      case _ => PushPlain(st, Act, ["type"]);
    }
    PlainClosed(st, s);
  }

  lemma FedByAfter(st: State, e: Expr, op: Opcode, args: seq<string>)
    requires Complete(op, args) && !IsControl(op)
    ensures Plain(ToNode(st, e).0, TransformSpec.FedBy(st, e, op, args).0)
  {
    var (s1, v) := ToNode(st, e);
    PushPlain(s1, op, args);
    LinkPlain(Push(s1, op, args).0, v, s1.nextId);
    PlainThen(s1, Push(s1, op, args).0, TransformSpec.FedBy(st, e, op, args).0);
  }

  lemma BindPlain(a: State, b: State, name: string, id: Id)
    requires Plain(a, b)
    ensures Plain(a, Bind(b, name, id))
  {
  }

  lemma MarkPlain(st: State, value: Expr, name: string)
    requires Plain(st, ToNode(st, value).0)
    ensures var (s1, n) := ToNode(st, value); Plain(st, Bind(s1.(nodes := MarkOutput(s1.nodes, n)), name, n))
  {
    var (s1, n) := ToNode(st, value);
    var s2 := Bind(s1.(nodes := MarkOutput(s1.nodes, n)), name, n);
    assert Plain(s1, s2);
    PlainThen(st, s1, s2);
  }

  lemma AugPlain(st: State, name: string, value: Expr)
    ensures var r := AugAssignStep(st, Name(name), value); Plain(st, r.st) && Owned(st, r)
  {
    hide Plain;
    var (s1, prior) := ResolveVar(st, name);
    PlainSelf(st);
    if name !in st.varMap {
      PushPlain(st, Input, ["name"]);
      BindPlain(st, Push(st, Input, ["name"]).0, name, st.nextId);
    }
    PlainNext(st, s1);
    var (s2, rhs) := ToNode(s1, value);
    ExprPlain(s1, value);
    PlainThen(st, s1, s2);
    PlainNext(s1, s2);
    var (s3, n) := Push(s2, Calc, ["expr", "output"]);
    PushPlain(s2, Calc, ["expr", "output"]);
    LinkPlain(s3, prior, n);
    LinkPlain(Link(s3, prior, n), rhs, n);
    PlainThen(st, s2, s3);
    PlainThen(st, s3, Link(s3, prior, n));
    PlainThen(st, Link(s3, prior, n), CombineTwo(s2, prior, rhs).0);
    BindPlain(st, CombineTwo(s2, prior, rhs).0, name, n);
  }

  // ── Bodies ──────────────────────────────────────────────────────

  ghost predicate TrailIn(lo: Id, hi: Id, t: Trail) {
    && (t.first.Some? ==> lo <= t.first.value < hi) && (t.last.Some? ==> lo <= t.last.value < hi)
    && (t.lastFirst.Some? ==> lo <= t.lastFirst.value < hi)
    && (t.first.Some? <==> t.last.Some?) && (t.last.Some? <==> t.lastFirst.Some?)
  }

  ghost predicate BodySited(st: State, r: BodyOutcome, ws: set<Walk>, free: Free) {
    r.Walked? ==> Stretch(st, r.st, ws, {}, free)
  }

  lemma ChainPlain(st: State, chain: Chain, t: Trail, first: Id)
    requires first < st.nextId
    ensures Plain(st, ChainTo(st, chain, t, first))
  {
  }

  lemma {:induction false} BodySites(st: State, stmts: seq<Stmt>, chain: Chain, t: Trail)
    ensures BodySited(st, Body(st, stmts, chain, t), BodyWalks(st, stmts, chain, t), Neither)
    ensures var r := Body(st, stmts, chain, t);
      r.Walked? ==> forall lo: nat :: lo <= st.nextId && TrailIn(lo, st.nextId, t) ==> TrailIn(lo, r.st.nextId, r.trail)
    decreases stmts, 0
  {
    hide Stretch, Plain;
    if stmts == [] {
      PlainSelf(st);
      PlainStretch(st, st, Neither);
      return;
    }
    var r := StmtStep(st, stmts[0]);
    StmtSites(st, stmts[0]);
    if r.Stopped? {
      return;
    }
    var s2 := ChainTo(r.st, chain, t, r.first);
    var next := Advance(t, r.first, r.last, IsTerminal(stmts[0]));
    ChainPlain(r.st, chain, t, r.first);
    StretchPlain(st, r.st, s2, Walks(st, stmts[0]), {}, Neither);
    PlainNext(r.st, s2);
    BodySites(s2, stmts[1..], chain, next);
    var b := Body(st, stmts, chain, t);
    if b.Walked? {
      StretchOn(st, s2, b.st, Walks(st, stmts[0]), BodyWalks(s2, stmts[1..], chain, next), {}, Neither);
      StretchKept(st, s2, Walks(st, stmts[0]), {}, Neither);
    }
  }

  /** A child of a PARALLEL is labelled with its number. */
  lemma Rebranched(st: State, k: nat, b: State, ws: set<Walk>)
    requires Stretch(st.(branch := Some(k)), b, ws, {}, Neither)
    ensures Stretch(st, b.(branch := st.branch), ws, {}, AnyBranch)
  {
    var s0, c := st.(branch := Some(k)), b.(branch := st.branch);
    forall w | w in ws
      ensures Lies(w, st, c)
    {
      assert Lies(w, s0, b);
    }
    forall i | |st.nodes| <= i < |c.nodes|
      ensures Accounted(c.nodes[i], st, ws, {}, AnyBranch)
    {
      assert Accounted(b.nodes[i], s0, ws, {}, Neither);
    }
  }

  lemma Regrouped(st: State, title: string, b: State, ws: set<Walk>)
    requires Stretch(st.(group := Some(title)), b, ws, {}, Neither)
    ensures Stretch(st, b.(group := st.group), ws, {}, AnyGroup)
  {
    var s0, c := st.(group := Some(title)), b.(group := st.group);
    forall w | w in ws
      ensures Lies(w, st, c)
    {
      assert Lies(w, s0, b);
    }
    forall i | |st.nodes| <= i < |c.nodes|
      ensures Accounted(c.nodes[i], st, ws, {}, AnyGroup)
    {
      assert Accounted(b.nodes[i], s0, ws, {}, Neither);
    }
  }

  lemma {:induction false} ChildSites(st: State, stmts: seq<Stmt>, k: nat, par: Id)
    ensures BodySited(st, ParallelBody(st, stmts, k, par), ChildWalks(st, stmts, k, par), AnyBranch)
    decreases stmts, 0
  {
    hide Stretch, Plain;
    if stmts == [] {
      PlainSelf(st);
      PlainStretch(st, st, AnyBranch);
      return;
    }
    var s0 := st.(branch := Some(k));
    var r := StmtStep(s0, stmts[0]);
    StmtSites(s0, stmts[0]);
    if r.Stopped? {
      return;
    }
    var s2 := r.st.(branch := st.branch);
    var s3 := Link(s2, par, r.first);
    Rebranched(st, k, r.st, Walks(s0, stmts[0]));
    LinkPlain(s2, par, r.first);
    StretchPlain(st, s2, s3, Walks(s0, stmts[0]), {}, AnyBranch);
    ChildSites(s3, stmts[1..], k + 1, par);
    var b := ParallelBody(st, stmts, k, par);
    if b.Walked? {
      StretchOn(st, s3, b.st, Walks(s0, stmts[0]), ChildWalks(s3, stmts[1..], k + 1, par), {}, AnyBranch);
    }
  }

  // ── Branches ────────────────────────────────────────────────────

  lemma CondLinkOpen(st: State, from: Id, to: Id, condition: string)
    requires to < st.nextId
    ensures Stretch(st, CondLink(st, from, to, condition), {}, {from}, Neither)
  {
  }

  lemma GateOpen(st: State, decide: Id, t: Trail, condition: string, lo: Id)
    requires TrailIn(lo, st.nextId, t) && decide < st.nextId
    ensures Stretch(st, Gate(st, decide, t, condition), {}, {decide}, Neither)
    ensures Gate(st, decide, t, condition) == st.(edges := Gate(st, decide, t, condition).edges)
  {
    hide Stretch;
    var s1 := if t.last.Some? then CondLink(st, decide, t.last.value, condition) else st;
    Widened(st, decide);
    if t.last.Some? {
      CondLinkOpen(st, decide, t.last.value, condition);
    }
    if t.first.Some? && t.first != t.last {
      CondLinkOpen(s1, decide, t.first.value, condition);
      StretchGate(st, s1, CondLink(s1, decide, t.first.value, condition), {}, decide);
    }
  }

  lemma Widened(st: State, id: Id)
    ensures Stretch(st, st, {}, {id}, Neither)
  {
  }

  /** A stretch in which a branching node of before gets its edges. */
  lemma StretchGate(a: State, b: State, c: State, ws: set<Walk>, id: Id)
    requires Stretch(a, b, ws, {id}, Neither) && Stretch(b, c, {}, {id}, Neither) && id < a.nextId
    ensures Stretch(a, c, ws, {id}, Neither)
  {
    hide Stretch;
    StretchKept(a, b, ws, {id}, Neither);
    StretchThen(a, b, c, ws, {}, {id}, {id}, Neither);
    assert ws + {} == ws && {id} + {id} == {id};
  }

  lemma JoinOpen(st: State, decide: Id, s: Stmt, t: Trail, e: Trail, names: set<string>, lo: Id)
    requires s.If? && decide < st.nextId && TrailIn(lo, st.nextId, t) && TrailIn(lo, st.nextId, e)
    ensures var (r, merge) := Join(st, decide, s, t, e, names);
      Stretch(st, r, {}, {decide}, Neither) && merge == st.nextId && r.nextId == st.nextId + 1
  {
    hide Stretch, Plain;
    var (s1, merge) := Push(st, Merge, []);
    PushPlain(st, Merge, []);
    var s2 := if t.last.Some? && !AllTerminal(s.body) then Link(s1, t.last.value, merge) else s1;
    PlainSelf(s1);
    if t.last.Some? {
      LinkPlain(s1, t.last.value, merge);
    }
    PlainThen(st, s1, s2);
    var s3 := if e.last.Some? && !AllTerminal(s.orelse) then Link(s2, e.last.value, merge) else s2;
    PlainSelf(s2);
    if e.last.Some? {
      LinkPlain(s2, e.last.value, merge);
    }
    PlainThen(st, s2, s3);
    var s4 := JoinEdges(s1, decide, s, t, e, merge);
    Widened(s3, decide);
    CondLinkOpen(s3, decide, merge, "false");
    PlainStretches(st, s3, s4, {}, {decide}, Neither);
    var r := Join(st, decide, s, t, e, names).0;
    AsidePlain(s4, r);
    StretchPlain(st, s4, r, {}, {decide}, Neither);
  }

  lemma {:induction false} IfSites(st: State, s: Stmt)
    requires s.If? && st.faults == []
    ensures StmtSited(st, s, StmtStep(st, s))
    decreases s, 0
  {
    hide Stretch, Plain, Gate, Join, TransformSpec.FedBy, TrailIn, NodeIs, NoConditions;
    var (s2, decide) := TransformSpec.FedBy(st, s.test, Decide, ["condition"]);
    FedByOpen(st, s.test, Decide, ["condition"], Neither);
    var t := Body(s2, s.body, Unchained, NoTrail);
    NoTrailIn(s2.nextId);
    BodySites(s2, s.body, Unchained, NoTrail);
    var r := IfStep(st, s);
    assert StmtStep(st, s) == r;
    if t.Halted? {
      return;
    }
    var B := BodyWalks(s2, s.body, Unchained, NoTrail);
    StretchKept(s2, t.st, B, {}, Neither);
    var s4 := Gate(t.st, decide, t.trail, "true");
    GateOpen(t.st, decide, t.trail, "true", s2.nextId);
    OpenMore(s2, t.st, B, decide);
    StretchGate(s2, t.st, s4, B, decide);
    var e := Body(s4, s.orelse, Unchained, NoTrail);
    NoTrailIn(s4.nextId);
    BodySites(s4, s.orelse, Unchained, NoTrail);
    if e.Halted? {
      return;
    }
    var E := BodyWalks(s4, s.orelse, Unchained, NoTrail);
    StretchKept(s4, e.st, E, {}, Neither);
    StretchOn(s2, s4, e.st, B, E, {decide}, Neither);
    var s6 := Gate(e.st, decide, e.trail, "false");
    GateOpen(e.st, decide, e.trail, "false", s4.nextId);
    StretchGate(s2, e.st, s6, B + E, decide);
    if !(AllTerminal(s.body) && AllTerminal(s.orelse)) {
      var names := (t.st.varMap.Keys - s2.varMap.Keys) + (e.st.varMap.Keys - s4.varMap.Keys);
      TrailUp(s2.nextId, t.st.nextId, s6.nextId, t.trail);
      TrailDown(s2.nextId, s4.nextId, e.st.nextId, e.trail);
      JoinOpen(s6, decide, s, t.trail, e.trail, names, s2.nextId);
      StretchGate(s2, s6, r.st, B + E, decide);
    }
    StretchKept(s2, r.st, B + E, {decide}, Neither);
    IfClosed(st, s, B + E);
  }

  lemma IfClosed(st: State, s: Stmt, ws: set<Walk>)
    requires s.If? && st.faults == [] && StmtStep(st, s).Done? && Owned(st, StmtStep(st, s)) && Inside(st, s) == ws
    requires var (s2, decide) := TransformSpec.FedBy(st, s.test, Decide, ["condition"]);
      Stretch(s2, StmtStep(st, s).st, ws, {decide}, Neither) && StmtStep(st, s).first == decide
    ensures StmtSited(st, s, StmtStep(st, s))
  {
    hide Stretch, TransformSpec.FedBy, NodeIs, NoConditions, IfStep;
    var r := StmtStep(st, s);
    var (s2, decide) := TransformSpec.FedBy(st, s.test, Decide, ["condition"]);
    FedByOpen(st, s.test, Decide, ["condition"], Neither);
    StretchKept(s2, r.st, ws, {decide}, Neither);
    StretchThen(st, s2, r.st, {}, ws, {decide}, {decide}, Neither);
    assert {decide} + {decide} == {decide} && {} + ws == ws;
    StretchKept(st, s2, {}, {decide}, Neither);
    NodeIsLater(st, s2, r.st, decide, Decide);
    Closed(st, s, r, ws, {decide}, Neither, Decide);
  }

  lemma OpenMore(a: State, b: State, ws: set<Walk>, id: Id)
    requires Stretch(a, b, ws, {}, Neither)
    ensures Stretch(a, b, ws, {id}, Neither)
  {
    forall k | |a.nodes| <= k < |b.nodes|
      ensures Accounted(b.nodes[k], a, ws, {id}, Neither)
    {
      assert Accounted(b.nodes[k], a, ws, {}, Neither);
    }
  }

  lemma NoTrailIn(id: Id)
    ensures TrailIn(id, id, NoTrail)
  {
  }

  lemma TrailUp(lo: Id, mid: Id, hi: Id, t: Trail)
    requires TrailIn(lo, mid, t) && mid <= hi
    ensures TrailIn(lo, hi, t)
  {
  }

  lemma TrailDown(low: Id, lo: Id, hi: Id, t: Trail)
    requires TrailIn(lo, hi, t) && low <= lo
    ensures TrailIn(low, hi, t)
  {
  }

  lemma {:induction false} ForSites(st: State, s: Stmt)
    requires s.For? && st.faults == []
    ensures StmtSited(st, s, StmtStep(st, s))
    decreases s, 0
  {
    hide Stretch, Plain, TransformSpec.FedBy, TrailIn, NodeIs, NoConditions;
    var r := ForStep(st, s);
    assert StmtStep(st, s) == r;
    if !s.target.Name? {
      var s1 := ToNode(st, s.iter).0;
      ExprPlain(st, s.iter);
      FallbackPlain(s1, TargetNotName);
      PlainNext(st, s1);
      PlainThen(st, s1, r.st);
      PlainClosed(st, s);
      return;
    }
    var (s2, loop) := TransformSpec.FedBy(st, s.iter, Loop, ["target", "max_iterations"]);
    FedByOpen(st, s.iter, Loop, ["target", "max_iterations"], Neither);
    var s3 := Bind(s2, s.target.id, loop);
    AsidePlain(s2, s3);
    StretchPlain(st, s2, s3, {}, {loop}, Neither);
    var b := Body(s3, s.body, ByControl, NoTrail);
    NoTrailIn(s3.nextId);
    BodySites(s3, s.body, ByControl, NoTrail);
    if b.Halted? {
      return;
    }
    var B := BodyWalks(s3, s.body, ByControl, NoTrail);
    StretchKept(s3, b.st, B, {}, Neither);
    StretchOn(st, s3, b.st, {}, B, {loop}, Neither);
    TrailFirst(s3.nextId, b.st.nextId, b.trail);
    PlainSelf(b.st);
    if b.trail.first.Some? {
      LinkPlain(b.st, loop, b.trail.first.value);
    }
    StretchPlain(st, b.st, r.st, {} + B, {loop}, Neither);
    assert {} + B == B && Inside(st, s) == B;
    StretchKept(st, s2, {}, {loop}, Neither);
    StretchKept(st, r.st, B, {loop}, Neither);
    KeptPlain(b.st, r.st);
    KeptPlain(s2, s3);
    KeptThen(s2, s3, b.st);
    KeptThen(s2, b.st, r.st);
    NodeIsLater(st, s2, r.st, loop, Loop);
    Closed(st, s, r, B, {loop}, Neither, Loop);
  }

  lemma KeptPlain(a: State, b: State)
    requires Plain(a, b)
    ensures Kept(a, b)
  {
  }

  lemma TrailFirst(lo: Id, hi: Id, t: Trail)
    requires TrailIn(lo, hi, t)
    ensures t.first.Some? ==> lo <= t.first.value < hi
    ensures t.last.Some? ==> lo <= t.last.value < hi
    ensures t.lastFirst.Some? ==> lo <= t.lastFirst.value < hi
  {
  }

  lemma {:induction false} WithSites(st: State, s: Stmt)
    requires s.With? && st.faults == []
    ensures StmtSited(st, s, StmtStep(st, s))
    decreases s, 0
  {
    hide Stretch, Plain, TrailIn;
    var r := WithStep(st, s);
    assert StmtStep(st, s) == r;
    match s.item
    case ParallelItem => ParallelSites(st, s);
    case GroupItem(title) =>
      var s0 := st.(group := Some(title));
      var b := Body(s0, s.body, ByData, NoTrail);
      NoTrailIn(s0.nextId);
      BodySites(s0, s.body, ByData, NoTrail);
      if b.Halted? {
        return;
      }
      var B := BodyWalks(s0, s.body, ByData, NoTrail);
      StretchKept(s0, b.st, B, {}, Neither);
      TrailFirst(s0.nextId, b.st.nextId, b.trail);
      var s1 := b.st.(group := st.group);
      Regrouped(st, title, b.st, B);
      AsidePlain(s1, r.st);
      StretchPlain(st, s1, r.st, B, {}, AnyGroup);
      Closed(st, s, r, B, {}, AnyGroup, Merge);
      assert {Walk(st, s)} + B == Walks(st, s);
    case OtherItem =>
      FallbackPlain(st, UnsupportedWith);
      PlainClosed(st, s);
  }

  lemma {:induction false} ParallelSites(st: State, s: Stmt)
    requires s.With? && s.item.ParallelItem? && st.faults == []
    ensures StmtSited(st, s, StmtStep(st, s))
    decreases s, 0, 0
  {
    hide Stretch, Plain;
    var r := WithStep(st, s);
    assert StmtStep(st, s) == r;
    var (s1, par) := Push(st, Parallel, []);
    PushOpen(st);
    var b := ParallelBody(s1, s.body, 0, par);
    ChildSites(s1, s.body, 0, par);
    if b.Halted? {
      return;
    }
    var B := ChildWalks(s1, s.body, 0, par);
    StretchKept(s1, b.st, B, {}, AnyBranch);
    StretchOn(st, s1, b.st, {}, B, {par}, AnyBranch);
    assert {} + B == B && Inside(st, s) == B;
    StretchKept(st, s1, {}, {par}, AnyBranch);
    NodeIsLater(st, s1, r.st, par, Parallel);
    Closed(st, s, r, B, {par}, AnyBranch, Parallel);
  }

  lemma PushOpen(st: State)
    ensures var (r, par) := Push(st, Parallel, []);
      Stretch(st, r, {}, {par}, AnyBranch) && NodeIs(st, r, par, Parallel) && par < r.nextId
  {
    var r := Push(st, Parallel, []).0;
    assert r.nodes[|st.nodes|].id == st.nextId;
  }

  lemma {:induction false} MatchSites(st: State, s: Stmt)
    requires s.Match? && st.faults == []
    ensures StmtSited(st, s, StmtStep(st, s))
    decreases s, 0
  {
    hide Stretch, Plain, TransformSpec.FedBy, NodeIs, NoConditions;
    var r := MatchStep(st, s);
    assert StmtStep(st, s) == r;
    var (s1, switch) := TransformSpec.FedBy(st, s.subject, Switch, ["source"]);
    FedByOpen(st, s.subject, Switch, ["source"], Neither);
    CaseSites(s1, s.cases, switch, false);
    if Cases(s1, s.cases, switch, false).Halted? {
      return;
    }
    var C := CaseWalks(s1, s.cases, switch, false);
    StretchKept(s1, r.st, C, {switch}, Neither);
    StretchThen(st, s1, r.st, {}, C, {switch}, {switch}, Neither);
    assert {switch} + {switch} == {switch} && {} + C == C && Inside(st, s) == C;
    StretchKept(st, s1, {}, {switch}, Neither);
    NodeIsLater(st, s1, r.st, switch, Switch);
    Closed(st, s, r, C, {switch}, Neither, Switch);
  }

  lemma EnterOpen(st: State, switch: Id, pattern: Pattern, t: Trail, lo: Id)
    requires TrailIn(lo, st.nextId, t) && switch < st.nextId
    ensures Stretch(st, EnterCase(st, switch, pattern, t), {}, {switch}, Neither)
  {
  }

  lemma {:induction false} CaseSites(st: State, cases: seq<Case>, switch: Id, hasDefault: bool)
    requires switch < st.nextId
    ensures var r := Cases(st, cases, switch, hasDefault);
      r.Walked? ==> Stretch(st, r.st, CaseWalks(st, cases, switch, hasDefault), {switch}, Neither)
    decreases cases, 0
  {
    hide Stretch, Plain, TrailIn;
    if cases == [] {
      Widened(st, switch);
      return;
    }
    var c, r := cases[0], Cases(st, cases, switch, hasDefault);
    if c.pattern.Unsupported? {
      var s1 := AddFault(st, UnsupportedPattern);
      AsidePlain(st, s1);
      CaseSites(s1, cases[1..], switch, hasDefault);
      if r.Walked? {
        PlainStretches(st, s1, r.st, CaseWalks(s1, cases[1..], switch, hasDefault), {switch}, Neither);
      }
      return;
    }
    var s1 := if c.pattern.Capture? && hasDefault then AddFault(st, ManyDefaults) else st;
    AsidePlain(st, s1);
    var b := Body(s1, c.body, Unchained, NoTrail);
    NoTrailIn(s1.nextId);
    BodySites(s1, c.body, Unchained, NoTrail);
    if b.Halted? {
      return;
    }
    var B := BodyWalks(s1, c.body, Unchained, NoTrail);
    StretchKept(s1, b.st, B, {}, Neither);
    PlainStretches(st, s1, b.st, B, {}, Neither);
    OpenMore(st, b.st, B, switch);
    var s3 := EnterCase(b.st, switch, c.pattern, b.trail);
    EnterOpen(b.st, switch, c.pattern, b.trail, s1.nextId);
    StretchGate(st, b.st, s3, B, switch);
    StretchKept(b.st, s3, {}, {switch}, Neither);
    CaseSites(s3, cases[1..], switch, hasDefault || c.pattern.Capture?);
    if r.Walked? {
      var C := CaseWalks(s3, cases[1..], switch, hasDefault || c.pattern.Capture?);
      StretchThen(st, s3, r.st, B, C, {switch}, {switch}, Neither);
      assert {switch} + {switch} == {switch};
    }
  }

  // ── Modules ─────────────────────────────────────────────────────

  lemma {:induction false} ParamsPlain(st: State, names: seq<string>)
    ensures Plain(st, Params(st, names))
    decreases names
  {
    hide Plain;
    PlainSelf(st);
    if names != [] {
      var (s1, n) := Push(st, Input, ["name"]);
      var s2 := Bind(s1, names[0], n);
      PushPlain(st, Input, ["name"]);
      BindPlain(st, s1, names[0], n);
      ParamsPlain(s2, names[1..]);
      PlainThen(st, s2, Params(st, names));
    }
  }

  lemma ModuleSites(m: seq<TopLevel>)
    requires ModuleStep(m).Ok?
    ensures Stretch(Initial, ModuleStep(m).value, ModuleWalks(m), {}, Neither)
  {
    hide Stretch, Plain;
    FindGraphFinds(m);
    var f := FindGraph(m).value;
    var s1 := Params(Initial, f.args);
    var s2 := Params(s1, f.posonlyargs);
    ParamsPlain(Initial, f.args);
    ParamsPlain(s1, f.posonlyargs);
    PlainThen(Initial, s1, s2);
    BodySites(s2, f.body, ByControl, NoTrail);
    PlainStretches(Initial, s2, ModuleStep(m).value, ModuleWalks(m), {}, Neither);
  }
}
