/** What loops, parallel blocks, groups, matches and joins leave in the finished plan, which nodes
    stand for which statements, and where the variables of a program live. */
module TransformParts {
  import opened Wrappers
  import opened Graphs
  import opened Ast
  import opened Plan
  import opened TransformSpec
  import opened TransformSites
  import opened TransformBranches
  import TransformReads

  // ── Walks within walks ──────────────────────────────────────────

  lemma InnerLies(v: Walk, w: Walk, b: State)
    requires Lies(w, Initial, b) && Lies(v, w.st, End(w).st)
    ensures Lies(v, Initial, b)
  {
    KeptThen(Initial, w.st, v.st);
    KeptThen(End(v).st, End(w).st, b);
    forall k | 0 <= k < |v.st.edges| && v.st.edges[k].condition.Some?
      ensures v.st.edges[k].from < v.st.nextId
    {
      if k < |w.st.edges| {
        assert v.st.edges[k] == w.st.edges[k];
      }
    }
    forall k | |End(v).st.edges| <= k < |b.edges| && b.edges[k].condition.Some?
      ensures b.edges[k].from < v.st.nextId || b.edges[k].from >= End(v).st.nextId
    {
      if k < |End(w).st.edges| {
        assert b.edges[k] == End(w).st.edges[k];
      }
    }
  }

  lemma InnerOf(m: seq<TopLevel>, w: Walk, v: Walk, ws: set<Walk>, b: State)
    requires ModuleStep(m).Ok? && w in ModuleWalks(m) && v in ws && Stretch(w.st, b, ws, {}, Neither) && End(w).Done? && b == End(w).st
    ensures Lies(v, Initial, ModuleStep(m).value)
  {
    ModuleSites(m);
    InnerLies(v, w, ModuleStep(m).value);
  }

  // ── Labels ──────────────────────────────────────────────────────

  /** The nodes numbered between the two states have these labels, but for those that a PARALLEL or GROUP
      among `ws` took over. */
  ghost predicate Labelled(final: State, a: State, b: State, ws: set<Walk>) {
    forall n :: n in final.nodes && a.nextId <= n.id < b.nextId ==>
      && (n.branchId == a.branch || InParallel(ws, n.id)) && (n.group == a.group || InGroup(ws, n.id))
  }

  lemma StretchLabels(a: State, b: State, ws: set<Walk>, final: State)
    requires Stretch(a, b, ws, {}, Neither) && Kept(Initial, a) && Kept(b, final)
    ensures Labelled(final, a, b, ws)
  {
    forall n | n in final.nodes && a.nextId <= n.id < b.nextId
      ensures n.branchId == a.branch || InParallel(ws, n.id)
      ensures n.group == a.group || InGroup(ws, n.id)
    {
      var k :| 0 <= k < |final.nodes| && final.nodes[k] == n;
      assert k < |b.nodes| && n == b.nodes[k].(args := n.args);
      assert |a.nodes| <= k;
      assert Accounted(b.nodes[k], a, ws, {}, Neither);
    }
  }

  /** Outside of all PARALLEL and GROUP blocks nodes have no label. */
  lemma TopIsUnlabelled(m: seq<TopLevel>)
    requires ModuleStep(m).Ok?
    ensures Labelled(ModuleStep(m).value, Initial, ModuleStep(m).value, ModuleWalks(m))
  {
    ModuleSites(m);
    StretchLabels(Initial, ModuleStep(m).value, ModuleWalks(m), ModuleStep(m).value);
  }

  /** Child `k` of a PARALLEL is walked as branch `k`. */
  ghost predicate IsChild(v: Walk, w: Walk, k: nat)
    requires w.stmt.With?
  {
    k < |w.stmt.body| && v.stmt == w.stmt.body[k] && v.st.branch == Some(k) && v.st.group == w.st.group && End(v).Done?
  }

  lemma {:induction false} ChildAt(st: State, stmts: seq<Stmt>, j: nat, par: Id, k: nat) returns (v: Walk)
    requires j <= k < j + |stmts| && ParallelBody(st, stmts, j, par).Walked? && par < st.nextId
    ensures v in ChildWalks(st, stmts, j, par) && v.stmt == stmts[k - j] && End(v).Done?
    ensures v.st.branch == Some(k) && v.st.group == st.group
    ensures NewEdge(par, End(v).first, None, Data) in ParallelBody(st, stmts, j, par).st.edges
    decreases |stmts|
  {
    hide StmtStep, Inside, Stretch;
    var s0 := st.(branch := Some(j));
    var r := StmtStep(s0, stmts[0]);
    StmtSites(s0, stmts[0]);
    var s3 := Link(r.st.(branch := st.branch), par, r.first);
    if k == j {
      v := Walk(s0, stmts[0]);
      assert v in Walks(s0, stmts[0]);
      EdgesGrow(s3, stmts[1..], j + 1, par);
      assert NewEdge(par, r.first, None, Data) in s3.edges;
    } else {
      StretchKept(s0, r.st, Walks(s0, stmts[0]), {}, Neither);
      v := ChildAt(s3, stmts[1..], j + 1, par, k);
    }
  }

  lemma EdgesGrow(st: State, stmts: seq<Stmt>, k: nat, par: Id)
    ensures var r := ParallelBody(st, stmts, k, par); r.Walked? ==> st.edges <= r.st.edges
  {
    assert BodyExtends(st, ParallelBody(st, stmts, k, par));
  }

  /** In the finished plan a PARALLEL leads to each of its children, and the nodes of child `k` carry the
      number `k`, except where a PARALLEL inside the child has put its own. */
  lemma ParallelLabels(m: seq<TopLevel>, w: Walk, k: nat) returns (v: Walk)
    requires ModuleStep(m).Ok? && w in ModuleWalks(m) && w.stmt.With? && w.stmt.item.ParallelItem? && k < |w.stmt.body|
    ensures IsChild(v, w, k) && Lies(v, Initial, ModuleStep(m).value) && End(w).Done?
    ensures NewEdge(End(w).first, End(v).first, None, Data) in ModuleStep(m).value.edges
    ensures Labelled(ModuleStep(m).value, v.st, End(v).st, Walks(v.st, v.stmt))
  {
    hide Stretch, ModuleStep, ModuleWalks, ParallelBody, ChildWalks, Targets, StmtStep, Kept;
    WalkStays(m, w);
    var (s1, par) := Push(w.st, Parallel, []);
    ParallelIs(w.st, w.stmt);
    v := ChildAt(s1, w.stmt.body, 0, par, k);
    StmtSites(w.st, w.stmt);
    assert v in Walks(w.st, w.stmt);
    InnerOf(m, w, v, Walks(w.st, w.stmt), End(w).st);
    EdgeStays(End(w).st, ModuleStep(m).value, NewEdge(par, End(v).first, None, Data));
    StmtSites(v.st, v.stmt);
    StretchLabels(v.st, End(v).st, Walks(v.st, v.stmt), ModuleStep(m).value);
  }

  lemma ParallelIs(st: State, s: Stmt)
    requires s.With? && s.item.ParallelItem? && st.faults == [] && StmtStep(st, s).Done?
    ensures var (s1, par) := Push(st, Parallel, []);
      && ParallelBody(s1, s.body, 0, par).Walked? && StmtStep(st, s) == Done(ParallelBody(s1, s.body, 0, par).st, par, par)
      && Inside(st, s) == ChildWalks(s1, s.body, 0, par) && par < s1.nextId
  {
  }

  /** In the finished plan the nodes of a GROUP carry its title, except where a GROUP inside has put its own. */
  lemma GroupLabels(m: seq<TopLevel>, w: Walk)
    requires ModuleStep(m).Ok? && w in ModuleWalks(m) && w.stmt.With? && w.stmt.item.GroupItem? && End(w).Done?
    ensures forall n :: n in ModuleStep(m).value.nodes && w.st.nextId <= n.id < End(w).st.nextId ==>
      || n.group == Some(w.stmt.item.title)
      || InGroup(BodyWalks(w.st.(group := Some(w.stmt.item.title)), w.stmt.body, ByData, NoTrail), n.id)
  {
    hide Stretch, ModuleStep, ModuleWalks, StmtStep, Body, BodyWalks, Targets;
    WalkStays(m, w);
    var s0, final := w.st.(group := Some(w.stmt.item.title)), ModuleStep(m).value;
    var b, ws := Body(s0, w.stmt.body, ByData, NoTrail), BodyWalks(s0, w.stmt.body, ByData, NoTrail);
    GroupIs(w.st, w.stmt);
    BodySites(s0, w.stmt.body, ByData, NoTrail);
    GroupKept(m, w, s0, b.st);
    StretchLabels(s0, b.st, ws, final);
    StretchKept(s0, b.st, ws, {}, Neither);
    KeptThen(Initial, s0, b.st);
    hide Kept;
    forall n | n in final.nodes && w.st.nextId <= n.id < End(w).st.nextId
      ensures n.id < b.st.nextId
    {
      SpareIsNoNode(b.st, End(w).st, final, n);
    }
  }

  lemma GroupIs(st: State, s: Stmt)
    requires s.With? && s.item.GroupItem? && st.faults == [] && StmtStep(st, s).Done?
    ensures var b := Body(st.(group := Some(s.item.title)), s.body, ByData, NoTrail);
      b.Walked? && StmtStep(st, s).st == GenId(b.st.(group := st.group)).0
  {
  }

  lemma GroupKept(m: seq<TopLevel>, w: Walk, s0: State, b: State)
    requires ModuleStep(m).Ok? && w in ModuleWalks(m) && End(w).Done? && s0 == w.st.(group := s0.group)
    requires End(w).st == GenId(b.(group := w.st.group)).0
    ensures Kept(Initial, s0) && Kept(b, ModuleStep(m).value)
  {
    hide StmtStep, ModuleStep, ModuleWalks;
    ModuleSites(m);
    assert Lies(w, Initial, ModuleStep(m).value);
    KeptThen(b, End(w).st, ModuleStep(m).value);
  }

  /** The id that a GROUP keeps in reserve names no node. */
  lemma SpareIsNoNode(b: State, e: State, final: State, n: Node)
    requires Kept(Initial, b) && Kept(e, final) && e.nodes == b.nodes && e.nextId == b.nextId + 1
    requires n in final.nodes && n.id < e.nextId
    ensures n.id < b.nextId
  {
    var k :| 0 <= k < |final.nodes| && final.nodes[k] == n;
    assert k < |e.nodes|;
    assert n == b.nodes[k].(args := n.args);
  }

  // ── Loops ───────────────────────────────────────────────────────

  /** In the finished plan a LOOP leads to the first node of its body, in which its target is the LOOP. */
  lemma LoopEntersBody(m: seq<TopLevel>, w: Walk) returns (st: State, id: Id)
    requires ModuleStep(m).Ok? && w in ModuleWalks(m) && w.stmt.For? && w.stmt.target.Name? && w.stmt.body != []
    ensures End(w).Done? && st.nextId == End(w).first + 1 && w.stmt.target.id in st.varMap && st.varMap[w.stmt.target.id] == End(w).first
    ensures NodeAt(ModuleStep(m).value, End(w).first, Loop) && BeginsAt(BodyWalks(st, w.stmt.body, ByControl, NoTrail), w.stmt.body, id)
    ensures NewEdge(End(w).first, id, None, Data) in ModuleStep(m).value.edges
  {
    hide Stretch, ModuleStep, ModuleWalks, Targets, StmtStep, Kept, Body, BodyWalks, BeginsAt, EndsAt, LastBeginsAt, NodeAt;
    WalkStays(m, w);
    st := LoopIs(w.st, w.stmt);
    BodyEnds(st, w.stmt.body, ByControl, NoTrail);
    id := Body(st, w.stmt.body, ByControl, NoTrail).trail.first.value;
    EdgeStays(End(w).st, ModuleStep(m).value, NewEdge(End(w).first, id, None, Data));
    NodeStays(End(w).st, ModuleStep(m).value, End(w).first, Loop);
  }

  lemma LoopIs(st: State, s: Stmt) returns (s3: State)
    requires s.For? && s.target.Name? && st.faults == [] && StmtStep(st, s).Done?
    ensures var r, b := StmtStep(st, s), Body(s3, s.body, ByControl, NoTrail);
      && s3.nextId == r.first + 1 && s.target.id in s3.varMap && s3.varMap[s.target.id] == r.first
      && NodeAt(r.st, r.first, Loop) && b.Walked? && r.last == r.first
      && (b.trail.first.Some? ==> NewEdge(r.first, b.trail.first.value, None, Data) in r.st.edges)
  {
    hide Stretch, NodeIs, NoConditions, TransformSpec.FedBy, Kept, NodeAt;
    var (s2, loop) := TransformSpec.FedBy(st, s.iter, Loop, ["target", "max_iterations"]);
    FedByOpen(st, s.iter, Loop, ["target", "max_iterations"], Neither);
    NodeIsAt(st, s2, loop, Loop);
    s3 := Bind(s2, s.target.id, loop);
    SameNodeAt(s2, s3, loop, Loop);
    BodySites(s3, s.body, ByControl, NoTrail);
    var b := Body(s3, s.body, ByControl, NoTrail);
    StretchKept(s3, b.st, BodyWalks(s3, s.body, ByControl, NoTrail), {}, Neither);
    NodeStays(s3, b.st, loop, Loop);
    assert StmtStep(st, s) == ForStep(st, s);
    SameNodeAt(b.st, ForStep(st, s).st, loop, Loop);
  }

  // ── One statement after the other ───────────────────────────────

  /** Two statements of a body that follow each other, and the edge from the end of the first to the
      beginning of the second. */
  ghost predicate Joined(ws: set<Walk>, first: Stmt, second: Stmt, kind: EdgeKind, edges: seq<Edge>) {
    exists v, u :: v in ws && u in ws && v.stmt == first && u.stmt == second && End(v).Done? && End(u).Done?
      && End(v).st.nextId <= u.st.nextId && NewEdge(End(v).last, End(u).first, None, kind) in edges
  }

  /** Control goes on from each statement of a chained body to the next one, unless it always returns; in a GROUP the
      order is one of data. */
  lemma {:induction false} BodyIsChained(st: State, stmts: seq<Stmt>, chain: Chain, t: Trail, i: nat)
    requires Body(st, stmts, chain, t).Walked? && i + 1 < |stmts|
    ensures var ws, edges := BodyWalks(st, stmts, chain, t), Body(st, stmts, chain, t).st.edges;
      && (chain == ByData ==> Joined(ws, stmts[i], stmts[i + 1], Data, edges))
      && (chain == ByControl && !IsTerminal(stmts[i]) ==> Joined(ws, stmts[i], stmts[i + 1], Control, edges))
    decreases |stmts|
  {
    hide StmtStep, Inside, IsTerminal, Stretch;
    var r := StmtStep(st, stmts[0]);
    var s2, next := ChainTo(r.st, chain, t, r.first), Advance(t, r.first, r.last, IsTerminal(stmts[0]));
    var ws, rest := BodyWalks(st, stmts, chain, t), BodyWalks(s2, stmts[1..], chain, next);
    assert ws == Walks(st, stmts[0]) + rest;
    if i > 0 {
      BodyIsChained(s2, stmts[1..], chain, next, i - 1);
      hide Body, BodyWalks;
      JoinedMore(rest, ws, stmts[i], stmts[i + 1], Body(st, stmts, chain, t).st.edges);
    } else {
      SecondFollows(s2, stmts[1..], chain, next);
      var v, u := Walk(st, stmts[0]), Walk(s2, stmts[1]);
      assert v in ws && u in ws && End(v) == r;
    }
  }

  lemma JoinedMore(few: set<Walk>, many: set<Walk>, first: Stmt, second: Stmt, edges: seq<Edge>)
    requires few <= many
    ensures forall kind :: Joined(few, first, second, kind, edges) ==> Joined(many, first, second, kind, edges)
  {
  }

  lemma SecondFollows(st: State, stmts: seq<Stmt>, chain: Chain, t: Trail)
    requires stmts != [] && t.last.Some? && Body(st, stmts, chain, t).Walked?
    ensures var u, edges := Walk(st, stmts[0]), Body(st, stmts, chain, t).st.edges;
      && u in BodyWalks(st, stmts, chain, t) && End(u).Done?
      && (chain == ByData ==> NewEdge(t.last.value, End(u).first, None, Data) in edges)
      && (chain == ByControl && !t.terminal ==> NewEdge(t.last.value, End(u).first, None, Control) in edges)
  {
    hide StmtStep, Inside, IsTerminal, Stretch;
    var r := StmtStep(st, stmts[0]);
    var s2, next := ChainTo(r.st, chain, t, r.first), Advance(t, r.first, r.last, IsTerminal(stmts[0]));
    assert Walk(st, stmts[0]) in Walks(st, stmts[0]);
    assert BodyExtends(s2, Body(s2, stmts[1..], chain, next));
    assert chain == ByData ==> NewEdge(t.last.value, r.first, None, Data) in s2.edges;
    assert chain == ByControl && !t.terminal ==> NewEdge(t.last.value, r.first, None, Control) in s2.edges;
  }

  /** The statements of a program follow each other in the finished plan. */
  lemma ProgramIsChained(m: seq<TopLevel>, i: nat)
    requires ModuleStep(m).Ok? && FindGraph(m).Some? && FindGraph(m).value.FunctionDef? && i + 1 < |FindGraph(m).value.body|
    ensures var body := FindGraph(m).value.body;
      !IsTerminal(body[i]) ==> Joined(ModuleWalks(m), body[i], body[i + 1], Control, ModuleStep(m).value.edges)
  {
    hide Joined, Body, BodyWalks;
    var f := FindGraph(m).value;
    BodyIsChained(Params(Params(Initial, f.args), f.posonlyargs), f.body, ByControl, NoTrail, i);
  }

  /** So do those of a loop body, and of a GROUP, where the order is one of data. */
  lemma BlockIsChained(m: seq<TopLevel>, w: Walk, i: nat)
    requires ModuleStep(m).Ok? && w in ModuleWalks(m) && (w.stmt.For? || w.stmt.With?) && i + 1 < |w.stmt.body|
    ensures var (body, edges) := (w.stmt.body, ModuleStep(m).value.edges);
      && (w.stmt.For? && w.stmt.target.Name? && !IsTerminal(body[i]) ==>
            Joined(Inside(w.st, w.stmt), body[i], body[i + 1], Control, edges))
      && (w.stmt.With? && w.stmt.item.GroupItem? ==> Joined(Inside(w.st, w.stmt), body[i], body[i + 1], Data, edges))
  {
    hide ModuleStep, ModuleWalks, Targets, Kept, Joined, IsTerminal;
    WalkStays(m, w);
    var edges := ModuleStep(m).value.edges;
    forall e | e in End(w).st.edges {
      EdgeStays(End(w).st, ModuleStep(m).value, e);
    }
    if (w.stmt.For? && w.stmt.target.Name?) || (w.stmt.With? && w.stmt.item.GroupItem?) {
      BlockIs(w.st, w.stmt, i);
      JoinedLater(Inside(w.st, w.stmt), w.stmt.body[i], w.stmt.body[i + 1], End(w).st.edges, edges);
    }
  }

  lemma BlockIs(st: State, s: Stmt, i: nat)
    requires st.faults == [] && StmtStep(st, s).Done? && (s.For? || s.With?) && i + 1 < |s.body|
    requires s.For? ==> s.target.Name?
    requires s.With? ==> s.item.GroupItem?
    ensures s.For? && !IsTerminal(s.body[i]) ==> Joined(Inside(st, s), s.body[i], s.body[i + 1], Control, StmtStep(st, s).st.edges)
    ensures s.With? ==> Joined(Inside(st, s), s.body[i], s.body[i + 1], Data, StmtStep(st, s).st.edges)
  {
    hide IsTerminal, Joined, Body, BodyWalks, TransformSpec.FedBy;
    if s.For? {
      var (s2, loop) := TransformSpec.FedBy(st, s.iter, Loop, ["target", "max_iterations"]);
      var s3 := Bind(s2, s.target.id, loop);
      assert StmtStep(st, s) == ForStep(st, s);
      BodyIsChained(s3, s.body, ByControl, NoTrail, i);
      JoinedLater(Inside(st, s), s.body[i], s.body[i + 1], Body(s3, s.body, ByControl, NoTrail).st.edges, StmtStep(st, s).st.edges);
    } else {
      assert StmtStep(st, s) == WithStep(st, s);
      BodyIsChained(st.(group := Some(s.item.title)), s.body, ByData, NoTrail, i);
    }
  }

  lemma JoinedLater(ws: set<Walk>, first: Stmt, second: Stmt, few: seq<Edge>, many: seq<Edge>)
    requires forall e :: e in few ==> e in many
    ensures forall kind :: Joined(ws, first, second, kind, few) ==> Joined(ws, first, second, kind, many)
  {
  }

  /** What a branching statement asks for is fed to its node: a condition, an iterable, a subject. */
  function Asked(s: Stmt): Option<Expr> {
    match s
    case If(test, _, _) => Some(test)
    case Assert(test) => Some(test)
    case Match(subject, _) => Some(subject)
    case For(target, iter, _) => if target.Name? then Some(iter) else None
    case _ => None
  }

  lemma AskedIsFed(m: seq<TopLevel>, w: Walk)
    requires ModuleStep(m).Ok? && w in ModuleWalks(m) && Asked(w.stmt).Some?
    ensures End(w).Done? && NewEdge(ToNode(w.st, Asked(w.stmt).value).1, End(w).first, None, Data) in ModuleStep(m).value.edges
  {
    hide ModuleStep, ModuleWalks, Targets, Kept, ToNode;
    WalkStays(m, w);
    FedIs(w.st, w.stmt);
    EdgeStays(End(w).st, ModuleStep(m).value, NewEdge(ToNode(w.st, Asked(w.stmt).value).1, End(w).first, None, Data));
  }

  lemma FedIs(st: State, s: Stmt)
    requires st.faults == [] && Asked(s).Some? && StmtStep(st, s).Done?
    ensures NewEdge(ToNode(st, Asked(s).value).1, StmtStep(st, s).first, None, Data) in StmtStep(st, s).st.edges
  {
    hide ToNode, Body, Cases, Gate, Join;
    var e := Asked(s).value;
    var op := if s.If? || s.Assert? then Decide else if s.Match? then Switch else Loop;
    var args := if s.If? || s.Assert? then ["condition"] else if s.Match? then ["source"] else ["target", "max_iterations"];
    var (s2, n) := TransformSpec.FedBy(st, e, op, args);
    assert NewEdge(ToNode(st, e).1, n, None, Data) in s2.edges;
    match s
    case If(_, _, _) => assert StmtStep(st, s) == IfStep(st, s);
    case For(_, _, _) => assert StmtStep(st, s) == ForStep(st, s);
    case Match(_, _) => assert StmtStep(st, s) == MatchStep(st, s);
    case Assert(_) =>
  }

  // ── Joins ───────────────────────────────────────────────────────

  /** The nodes from which edges without a condition enter this one. */
  ghost function Sources(edges: seq<Edge>, to: Id): set<Id> {
    set e | e in edges && e.to == to && e.condition.None? :: e.from
  }

  /** The MERGE of an `if` is fed by the last node of each branch that does not return as a whole, and by
      nothing else. */
  lemma MergeIsFed(m: seq<TopLevel>, w: Walk) returns (t: BodyOutcome, from: State, e: BodyOutcome)
    requires ModuleStep(m).Ok? && w in ModuleWalks(m) && w.stmt.If?
    requires !(AllTerminal(w.stmt.body) && AllTerminal(w.stmt.orelse))
    ensures End(w).Done? && Branches(w.st, w.stmt, t, from, e) && NodeAt(ModuleStep(m).value, End(w).last, Merge)
    ensures Sources(End(w).st.edges, End(w).last) ==
      (if t.trail.last.Some? && !AllTerminal(w.stmt.body) then {t.trail.last.value} else {}) +
      (if e.trail.last.Some? && !AllTerminal(w.stmt.orelse) then {e.trail.last.value} else {})
    ensures forall x :: x in End(w).st.edges ==> x in ModuleStep(m).value.edges
  {
    hide Stretch, ModuleStep, ModuleWalks, Targets, StmtStep, Kept, Body, NodeAt, Sources, Branches;
    WalkStays(m, w);
    KeptBefore(m, w);
    t, from, e := JoinIs(w.st, w.stmt);
    NodeStays(End(w).st, ModuleStep(m).value, End(w).last, Merge);
    forall x | x in End(w).st.edges {
      EdgeStays(End(w).st, ModuleStep(m).value, x);
    }
  }

  lemma KeptBefore(m: seq<TopLevel>, w: Walk)
    requires ModuleStep(m).Ok? && w in ModuleWalks(m)
    ensures Kept(Initial, w.st)
  {
    hide ModuleStep, ModuleWalks, Kept;
    ModuleSites(m);
    assert Lies(w, Initial, ModuleStep(m).value);
  }

  lemma JoinIs(st: State, s: Stmt) returns (t: BodyOutcome, from: State, e: BodyOutcome)
    requires s.If? && st.faults == [] && StmtStep(st, s).Done? && !(AllTerminal(s.body) && AllTerminal(s.orelse)) && Kept(Initial, st)
    ensures Branches(st, s, t, from, e)
    ensures var r := StmtStep(st, s);
      && NodeAt(r.st, r.last, Merge)
      && Sources(r.st.edges, r.last) ==
         (if t.trail.last.Some? && !AllTerminal(s.body) then {t.trail.last.value} else {}) +
         (if e.trail.last.Some? && !AllTerminal(s.orelse) then {e.trail.last.value} else {})
  {
    hide Stretch, TransformSpec.FedBy, Gate, Join, TrailIn, NodeIs, NoConditions, NodeAt, Kept, Body, StmtStep, Extends, Sources, AllTerminal;
    IfIs(st, s);
    var (s2, decide) := TransformSpec.FedBy(st, s.test, Decide, ["condition"]);
    FedByOpen(st, s.test, Decide, ["condition"], Neither);
    StretchKept(st, s2, {}, {decide}, Neither);
    KeptThen(Initial, st, s2);
    t := Body(s2, s.body, Unchained, NoTrail);
    GateKept(s2, s.body, decide, "true");
    from := Gate(t.st, decide, t.trail, "true");
    GateKeeps(t.st, decide, t.trail, "true");
    e := Body(from, s.orelse, Unchained, NoTrail);
    GateKept(from, s.orelse, decide, "false");
    var s6 := Gate(e.st, decide, e.trail, "false");
    var names := (t.st.varMap.Keys - s2.varMap.Keys) + (e.st.varMap.Keys - from.varMap.Keys);
    JoinSources(s6, decide, s, t.trail, e.trail, names);
  }

  lemma GateKept(st: State, stmts: seq<Stmt>, decide: Id, condition: string)
    requires decide < st.nextId && Kept(Initial, st)
    ensures var r := Body(st, stmts, Unchained, NoTrail);
      r.Walked? ==> Kept(Initial, Gate(r.st, decide, r.trail, condition)) && decide < Gate(r.st, decide, r.trail, condition).nextId
  {
    hide Stretch, TrailIn, Gate, Body, Kept;
    var r := Body(st, stmts, Unchained, NoTrail);
    BodySites(st, stmts, Unchained, NoTrail);
    NoTrailIn(st.nextId);
    if r.Walked? {
      StretchKept(st, r.st, BodyWalks(st, stmts, Unchained, NoTrail), {}, Neither);
      GateOpen(r.st, decide, r.trail, condition, st.nextId);
      StretchKept(r.st, Gate(r.st, decide, r.trail, condition), {}, {decide}, Neither);
      KeptThen(Initial, st, r.st);
      KeptThen(Initial, r.st, Gate(r.st, decide, r.trail, condition));
    }
  }

  lemma JoinSources(st: State, decide: Id, s: Stmt, t: Trail, e: Trail, names: set<string>)
    requires s.If? && Kept(Initial, st)
    ensures var (r, merge) := Join(st, decide, s, t, e, names);
      && NodeAt(r, merge, Merge)
      && Sources(r.edges, merge) ==
         (if t.last.Some? && !AllTerminal(s.body) then {t.last.value} else {}) +
         (if e.last.Some? && !AllTerminal(s.orelse) then {e.last.value} else {})
  {
    hide AllTerminal, Sources;
    var (s1, merge) := Push(st, Merge, []);
    assert s1.nodes[|st.nodes|] in s1.nodes;
    NoSources(st);
    var s2 := if t.last.Some? && !AllTerminal(s.body) then Link(s1, t.last.value, merge) else s1;
    if t.last.Some? {
      LinkSources(s1, t.last.value, merge);
    }
    var s3 := if e.last.Some? && !AllTerminal(s.orelse) then Link(s2, e.last.value, merge) else s2;
    if e.last.Some? {
      LinkSources(s2, e.last.value, merge);
    }
    GuardedSources(s3, decide, merge);
  }

  lemma NoSources(st: State)
    requires Kept(Initial, st)
    ensures Sources(st.edges, st.nextId) == {}
  {
  }

  lemma LinkSources(st: State, from: Id, to: Id)
    ensures Sources(Link(st, from, to).edges, to) == Sources(st.edges, to) + {from}
  {
    var e, r := NewEdge(from, to, None, Data), Link(st, from, to).edges;
    assert r == st.edges + [e] && e in r;
    forall x | x in Sources(st.edges, to)
      ensures x in Sources(r, to)
    {
      var f :| f in st.edges && f.to == to && f.condition.None? && f.from == x;
      assert f in r;
    }
  }

  lemma GuardedSources(st: State, from: Id, to: Id)
    ensures Sources(CondLink(st, from, to, "false").edges, to) == Sources(st.edges, to)
  {
    var r := CondLink(st, from, to, "false").edges;
    assert r == st.edges + [NewEdge(from, to, Some("false"), Data)];
    forall x | x in Sources(st.edges, to)
      ensures x in Sources(r, to)
    {
      var f :| f in st.edges && f.to == to && f.condition.None? && f.from == x;
      assert f in r;
    }
  }

  // ── Matches ─────────────────────────────────────────────────────

  /** The case is for this text, and its last statement begins here. */
  ghost predicate CaseEnters(ws: set<Walk>, c: Case, text: string, id: Id) {
    c.pattern == Literal(text) && LastBeginsAt(ws, c.body, id)
  }

  ghost predicate SomeCaseEnters(ws: set<Walk>, cases: seq<Case>, text: string, id: Id) {
    exists i :: 0 <= i < |cases| && CaseEnters(ws, cases[i], text, id)
  }

  /** One of the targets is the last statement of this case, under its text. */
  ghost predicate CaseIsEntered(ws: set<Walk>, c: Case, targets: set<(string, Id)>) {
    exists text, id :: (text, id) in targets && CaseEnters(ws, c, text, id)
  }

  /** The SWITCH leads to its literal cases, under their texts, and nowhere else. */
  ghost predicate LeadsToCases(ws: set<Walk>, cases: seq<Case>, before: set<(string, Id)>, after: set<(string, Id)>) {
    && before <= after
    && (forall x :: x in after - before ==> SomeCaseEnters(ws, cases, x.0, x.1))
    && (forall i :: 0 <= i < |cases| && cases[i].pattern.Literal? && cases[i].body != [] ==> CaseIsEntered(ws, cases[i], after))
  }

  lemma EntersMore(few: set<Walk>, many: set<Walk>)
    requires few <= many
    ensures forall c, text, id :: CaseEnters(few, c, text, id) ==> CaseEnters(many, c, text, id)
  {
  }

  /** A case and the cases behind it. */
  lemma CasesThen(first: set<Walk>, rest: set<Walk>, cases: seq<Case>, a: set<(string, Id)>, b: set<(string, Id)>, c: set<(string, Id)>)
    requires cases != [] && LeadsToCases(first, [cases[0]], a, b) && LeadsToCases(rest, cases[1..], b, c)
    ensures LeadsToCases(first + rest, cases, a, c)
  {
    hide CaseEnters;
    var ws := first + rest;
    EntersMore(first, ws);
    EntersMore(rest, ws);
    forall x | x in c - a
      ensures SomeCaseEnters(ws, cases, x.0, x.1)
    {
      if x in b {
        assert SomeCaseEnters(first, [cases[0]], x.0, x.1);
        assert CaseEnters(ws, cases[0], x.0, x.1);
      } else {
        var i :| 0 <= i < |cases| - 1 && CaseEnters(rest, cases[1..][i], x.0, x.1);
        assert CaseEnters(ws, cases[i + 1], x.0, x.1);
      }
    }
    forall i | 0 <= i < |cases| && cases[i].pattern.Literal? && cases[i].body != []
      ensures CaseIsEntered(ws, cases[i], c)
    {
      if i == 0 {
        assert CaseIsEntered(first, [cases[0]][0], b);
      } else {
        assert CaseIsEntered(rest, cases[1..][i - 1], c);
      }
    }
  }

  lemma NoCase(cases: seq<Case>, a: set<(string, Id)>)
    requires forall c :: c in cases ==> !c.pattern.Literal? || c.body == []
    ensures LeadsToCases({}, cases, a, a)
  {
  }

  lemma OneCase(st: State, c: Case, switch: Id, s1: State)
    requires !c.pattern.Unsupported? && switch < st.nextId && s1.nextId == st.nextId && s1.edges == st.edges
    ensures var r := Body(s1, c.body, Unchained, NoTrail);
      r.Walked? ==>
        LeadsToCases(BodyWalks(s1, c.body, Unchained, NoTrail), [c], Targets(st.edges, switch),
                     Targets(EnterCase(r.st, switch, c.pattern, r.trail).edges, switch))
  {
    hide Targets, Body, BodyWalks, LastBeginsAt, TrailIn, Kept;
    var r, ws := Body(s1, c.body, Unchained, NoTrail), BodyWalks(s1, c.body, Unchained, NoTrail);
    BodyTargets(s1, c.body, switch);
    if r.Walked? {
      var x := EnterCase(r.st, switch, c.pattern, r.trail);
      EmptyBody(s1);
      if c.body != [] {
        BodyEnds(s1, c.body, Unchained, NoTrail);
        var id := r.trail.lastFirst.value;
        if c.pattern.Literal? {
          LinkTargets(r.st, switch, id, c.pattern.text);
          assert CaseEnters(ws, [c][0], c.pattern.text, id);
          assert (c.pattern.text, id) in Targets(x.edges, switch);
        } else {
          UnguardedTargets(r.st, switch, id);
        }
      }
    }
  }

  lemma EmptyBody(st: State)
    ensures Body(st, [], Unchained, NoTrail) == Walked(st, NoTrail)
  {
  }

  lemma UnguardedTargets(st: State, from: Id, to: Id)
    ensures Targets(Link(st, from, to).edges, from) == Targets(st.edges, from)
  {
    SameTargets(st, Link(st, from, to), from);
  }

  lemma {:induction false} CasesLead(st: State, cases: seq<Case>, switch: Id, hasDefault: bool)
    requires switch < st.nextId && Cases(st, cases, switch, hasDefault).Walked?
    ensures LeadsToCases(CaseWalks(st, cases, switch, hasDefault), cases, Targets(st.edges, switch),
                         Targets(Cases(st, cases, switch, hasDefault).st.edges, switch))
    decreases |cases|
  {
    hide Targets, Body, BodyWalks, LeadsToCases, Stretch, TrailIn;
    if cases == [] {
      NoCase(cases, Targets(st.edges, switch));
      return;
    }
    var c := cases[0];
    if c.pattern.Unsupported? {
      var s1 := AddFault(st, UnsupportedPattern);
      CasesLead(s1, cases[1..], switch, hasDefault);
      NoCase([c], Targets(st.edges, switch));
      CasesThen({}, CaseWalks(s1, cases[1..], switch, hasDefault), cases, Targets(st.edges, switch), Targets(st.edges, switch),
        Targets(Cases(st, cases, switch, hasDefault).st.edges, switch));
      assert {} + CaseWalks(s1, cases[1..], switch, hasDefault) == CaseWalks(st, cases, switch, hasDefault);
    } else {
      var s1 := if c.pattern.Capture? && hasDefault then AddFault(st, ManyDefaults) else st;
      var b := Body(s1, c.body, Unchained, NoTrail);
      OneCase(st, c, switch, s1);
      BodyTargets(s1, c.body, switch);
      var s3, more := EnterCase(b.st, switch, c.pattern, b.trail), hasDefault || c.pattern.Capture?;
      assert Extends(b.st, s3);
      CasesLead(s3, cases[1..], switch, more);
      CasesThen(BodyWalks(s1, c.body, Unchained, NoTrail), CaseWalks(s3, cases[1..], switch, more), cases,
        Targets(st.edges, switch), Targets(s3.edges, switch), Targets(Cases(st, cases, switch, hasDefault).st.edges, switch));
    }
  }

  /** In the finished plan the condition edges of a SWITCH lead, under the text of each literal case, to the last
      statement of that case, and nowhere else. */
  lemma MatchLeads(m: seq<TopLevel>, w: Walk)
    requires ModuleStep(m).Ok? && w in ModuleWalks(m) && w.stmt.Match?
    ensures End(w).Done? && LeadsToCases(Inside(w.st, w.stmt), w.stmt.cases, {}, Targets(ModuleStep(m).value.edges, End(w).first))
  {
    hide ModuleStep, ModuleWalks, Targets, Kept, LeadsToCases;
    WalkStays(m, w);
    SwitchIs(w.st, w.stmt);
  }

  lemma SwitchIs(st: State, s: Stmt)
    requires s.Match? && st.faults == [] && StmtStep(st, s).Done?
    requires forall x :: x in st.edges && x.condition.Some? ==> x.from < st.nextId
    ensures var r := StmtStep(st, s);
      && LeadsToCases(Inside(st, s), s.cases, {}, Targets(r.st.edges, r.first)) && st.nextId <= r.first < r.st.nextId
  {
    hide Targets, TransformSpec.FedBy, LeadsToCases, Stretch, NoConditions, NodeIs, CaseWalks, Cases;
    assert StmtStep(st, s) == MatchStep(st, s);
    var (s1, switch) := TransformSpec.FedBy(st, s.subject, Switch, ["source"]);
    FedByOpen(st, s.subject, Switch, ["source"], Neither);
    NoTargets(st, s1, switch);
    CasesLead(s1, s.cases, switch, false);
    StmtSites(st, s);
  }

  // ── Which node stands for what ──────────────────────────────────

  /** The opcode of the node that computes an expression: a tool call, a wait, or a calculation. */
  predicate ComputedBy(e: Expr, op: Opcode) {
    if e.Call? && (Callee(e.func) == Some("call") || Callee(e.func) == Some("act")) then op == Opcode.Call
    else if e.Call? && Callee(e.func) == Some("sleep") then op == Wait
    else op == Calc
  }

  lemma ExprOpcode(st: State, e: Expr)
    requires e.Call? ==> Callee(e.func).Some?
    ensures exists op :: ComputedBy(e, op) && NodeAt(ToNode(st, e).0, ToNode(st, e).1, op)
  {
    hide IsBuiltin, WireDeps, Kept, NodeAt;
    match e
    case Call(func, _, _) =>
      CallOpcode(st, e, Callee(func).value);
    case _ =>
      var s1 := Push(st, Calc, ["expr"]).0;
      PushedAt(st, Calc, ["expr"]);
      WirePlain(s1, e, st.nextId);
      KeptPlain(s1, ToNode(st, e).0);
      NodeStays(s1, ToNode(st, e).0, st.nextId, Calc);
      assert ComputedBy(e, Calc);
  }

  lemma CallOpcode(st: State, e: Expr, name: string)
    requires e.Call? && Callee(e.func) == Some(name)
    ensures var op := if name == "call" || name == "act" then Opcode.Call else if name == "sleep" then Wait else Calc;
      ComputedBy(e, op) && NodeAt(ToNode(st, e).0, ToNode(st, e).1, op)
  {
    hide IsBuiltin, Feed, FeedKeywords, ToNodes, LinkAll, Kept, NodeAt;
    if name == "call" || name == "act" {
      ArgumentsAt(st, e.args, e.keywords, Opcode.Call, ["type", "target"] + KeywordNames(e.keywords));
    } else if name == "sleep" {
      ArgumentsAt(st, e.args, [], Wait, ["duration_secs"]);
    } else if IsBuiltin(name) {
      var s1 := ToNodes(st, e.args).0;
      PushedAt(s1, Calc, ["expr"]);
      LinkAllPlain(Push(s1, Calc, ["expr"]).0, ToNodes(st, e.args).1, s1.nextId);
      KeptPlain(Push(s1, Calc, ["expr"]).0, ToNode(st, e).0);
      NodeStays(Push(s1, Calc, ["expr"]).0, ToNode(st, e).0, s1.nextId, Calc);
    } else {
      ArgumentsAt(st, e.args, e.keywords, Calc, ["expr"]);
    }
  }

  lemma ArgumentsAt(st: State, args: seq<Expr>, keywords: seq<Keyword>, op: Opcode, names: seq<string>)
    requires Complete(op, names)
    ensures var s2 := Feed(Push(st, op, names).0, args, st.nextId);
      NodeAt(s2, st.nextId, op) && NodeAt(FeedKeywords(s2, keywords, st.nextId), st.nextId, op)
  {
    PushedAt(st, op, names);
    FedAt(Push(st, op, names).0, args, keywords, st.nextId, op);
  }

  lemma PushedAt(st: State, op: Opcode, args: seq<string>)
    requires Complete(op, args)
    ensures NodeAt(Push(st, op, args).0, st.nextId, op) && Push(st, op, args).0.nextId == st.nextId + 1
  {
    assert Push(st, op, args).0.nodes[|st.nodes|] in Push(st, op, args).0.nodes;
  }

  lemma FedAt(st: State, args: seq<Expr>, keywords: seq<Keyword>, n: Id, op: Opcode)
    requires NodeAt(st, n, op) && n < st.nextId
    ensures NodeAt(Feed(st, args, n), n, op) && NodeAt(FeedKeywords(Feed(st, args, n), keywords, n), n, op)
  {
    hide Plain, NodeAt, Feed, FeedKeywords, Kept;
    var s2 := Feed(st, args, n);
    FeedPlain(st, args, n);
    KeptPlain(st, s2);
    PlainNext(st, s2);
    NodeStays(st, s2, n, op);
    FeedKeywordsPlain(s2, keywords, n);
    KeptPlain(s2, FeedKeywords(s2, keywords, n));
    NodeStays(s2, FeedKeywords(s2, keywords, n), n, op);
  }

  lemma {:induction false} MarkMarks(nodes: seq<Node>, id: Id)
    requires exists n :: n in nodes && n.id == id
    ensures exists n :: n in MarkOutput(nodes, id) && n.id == id && "output" in n.args
  {
    var marked := MarkOutput(nodes, id);
    if nodes[0].id == id {
      assert marked[0] in marked && "output" in marked[0].args;
    } else {
      MarkMarks(nodes[1..], id);
      var n :| n in MarkOutput(nodes[1..], id) && n.id == id && "output" in n.args;
      assert n in marked;
    }
  }

  /** The node of an assigned value stores its result. */
  lemma AssignedIsOutput(st: State, x: string, e: Expr)
    requires e.Call? ==> Callee(e.func).Some?
    ensures var r := AssignStep(st, [Name(x)], e);
      && x in r.st.varMap && r.st.varMap[x] == r.last && r.first == r.last
      && exists n :: n in r.st.nodes && n.id == r.last && "output" in n.args
  {
    hide ToNode, Extends;
    ExprOpcode(st, e);
    MarkMarks(ToNode(st, e).0.nodes, ToNode(st, e).1);
  }

  /** In the finished plan `return`, `break` and `continue` are ACT nodes, `raise` is an ERROR, `assert` a DECIDE and an
      augmented assignment a CALC; a returned value is computed first, and fed to the ACT. */
  lemma SimpleStatements(m: seq<TopLevel>, w: Walk)
    requires ModuleStep(m).Ok? && w in ModuleWalks(m)
    ensures var (s, final) := (w.stmt, ModuleStep(m).value);
      && End(w).Done?
      && (s.Return? || s.Break? || s.Continue? ==> NodeAt(final, End(w).last, Act))
      && (s.Raise? ==> NodeAt(final, End(w).last, Error))
      && (s.Assert? ==> NodeAt(final, End(w).last, Decide))
      && (s.AugAssign? && s.target.Name? ==> NodeAt(final, End(w).last, Calc))
      && (s.Return? && s.returned.Some? ==>
            End(w).first == ToNode(w.st, s.returned.value).1 && NewEdge(End(w).first, End(w).last, None, Data) in final.edges)
  {
    hide ModuleStep, ModuleWalks, Targets, Kept, NodeAt, ToNode, Extends;
    WalkStays(m, w);
    var s, st, final := w.stmt, w.st, ModuleStep(m).value;
    var op := if s.Return? || s.Break? || s.Continue? then Act else if s.Raise? then Error else if s.Assert? then Decide else Calc;
    if s.Return? || s.Break? || s.Continue? || s.Raise? || s.Assert? || (s.AugAssign? && s.target.Name?) {
      SimpleIs(st, s, op);
      NodeStays(End(w).st, final, End(w).last, op);
      if s.Return? && s.returned.Some? {
        EdgeStays(End(w).st, final, NewEdge(End(w).first, End(w).last, None, Data));
      }
    }
  }

  lemma SimpleIs(st: State, s: Stmt, op: Opcode)
    requires st.faults == [] && (s.Return? || s.Break? || s.Continue? || s.Raise? || s.Assert? || (s.AugAssign? && s.target.Name?))
    requires op == if s.Return? || s.Break? || s.Continue? then Act else if s.Raise? then Error else if s.Assert? then Decide else Calc
    ensures var r := StmtStep(st, s);
      && r.Done? && NodeAt(r.st, r.last, op)
      && (s.Return? && s.returned.Some? ==>
            r.first == ToNode(st, s.returned.value).1 && NewEdge(r.first, r.last, None, Data) in r.st.edges)
  {
    hide ToNode, Extends, NodeAt;
    match s
    case Return(returned) =>
      if returned.Some? {
        PushedAt(ToNode(st, returned.value).0, Act, ["type"]);
        SameNodeAt(Push(ToNode(st, returned.value).0, Act, ["type"]).0, StmtStep(st, s).st, StmtStep(st, s).last, Act);
      } else {
        PushedAt(st, Act, ["type"]);
      }
    case Raise => PushedAt(st, Error, ["message"]);
    case Assert(test) =>
      PushedAt(ToNode(st, test).0, Decide, ["condition"]);
      SameNodeAt(Push(ToNode(st, test).0, Decide, ["condition"]).0, StmtStep(st, s).st, StmtStep(st, s).last, Decide);
    case AugAssign(target, value) =>
      var s2 := ToNode(ResolveVar(st, target.id).0, value).0;
      PushedAt(s2, Calc, ["expr", "output"]);
      SameNodeAt(Push(s2, Calc, ["expr", "output"]).0, StmtStep(st, s).st, StmtStep(st, s).last, Calc);
    case _ => PushedAt(st, Act, ["type"]);
  }

  // ── Where variables live ────────────────────────────────────────

  /** An expression depends on whatever node its variables are bound to, and still does in every continuation. */
  lemma BoundReachesUse(st: State, x: string, e: Expr, final: State)
    requires x in TransformReads.Reads(e) && x in st.varMap && Extends(ToNode(st, e).0, final)
    ensures Reaches(Arcs(final.edges), st.varMap[x], ToNode(st, e).1)
  {
    hide ToNode;
    TransformReads.ReadsAreFed(st, e);
    TransformReads.ArcsGrow(ToNode(st, e).0.edges, final.edges);
    ReachesMono(Arcs(ToNode(st, e).0.edges), Arcs(final.edges), st.varMap[x], ToNode(st, e).1);
  }

  /** After `x += e1` the variable is the new CALC node, which is fed by what it was before and by the value. */
  lemma AugmentedReachesUse(st: State, x: string, e1: Expr)
    ensures var r := AugAssignStep(st, Name(x), e1);
      && x in r.st.varMap && r.st.varMap[x] == r.last && (forall y :: y in r.st.varMap && y != x && y in st.varMap ==> r.st.varMap[y] == st.varMap[y])
      && (x in st.varMap ==> NewEdge(st.varMap[x], r.last, None, Data) in r.st.edges)
      && NewEdge(ToNode(ResolveVar(st, x).0, e1).1, r.last, None, Data) in r.st.edges
  {
    ExprKeepsVariables(ResolveVar(st, x).0, e1);
    hide ToNode, Extends;
    var (s2, rhs) := ToNode(ResolveVar(st, x).0, e1);
    var prior := ResolveVar(st, x).1;
    var n := s2.nextId;
    assert CombineTwo(s2, prior, rhs).0.edges == s2.edges + [NewEdge(prior, n, None, Data)] + [NewEdge(rhs, n, None, Data)];
  }

  lemma ExprKeepsVariables(st: State, e: Expr)
    ensures ToNode(st, e).0.varMap == st.varMap
  {
    hide ToNode;
    TransformReads.ReadsAreFed(st, e);
  }

  /** After an `if` that goes on, a variable that did not exist before it is the MERGE; one that did is what the
      branches left behind, the `else` after the body: it does not move to the MERGE. */
  lemma IfVariables(st: State, s: Stmt) returns (t: BodyOutcome, from: State, e: BodyOutcome)
    requires s.If? && st.faults == [] && StmtStep(st, s).Done? && !(AllTerminal(s.body) && AllTerminal(s.orelse))
    ensures Branches(st, s, t, from, e)
    ensures var (r, merge) := (StmtStep(st, s).st.varMap, StmtStep(st, s).last);
      && (forall x :: x !in st.varMap && (x in t.st.varMap || x in e.st.varMap) ==> x in r && r[x] == merge)
      && (forall x :: x in st.varMap && x in t.st.varMap && x in e.st.varMap ==> x in r && r[x] == e.st.varMap[x])
  {
    hide TransformSpec.FedBy, Gate, Body, StmtStep, Extends, AllTerminal, JoinEdges;
    IfIs(st, s);
    var (s2, decide) := TransformSpec.FedBy(st, s.test, Decide, ["condition"]);
    FedByKeepsVariables(st, s.test, Decide, ["condition"]);
    t := Body(s2, s.body, Unchained, NoTrail);
    from := Gate(t.st, decide, t.trail, "true");
    GateKeeps(t.st, decide, t.trail, "true");
    e := Body(from, s.orelse, Unchained, NoTrail);
    GateKeeps(e.st, decide, e.trail, "false");
    var s6 := Gate(e.st, decide, e.trail, "false");
    JoinKeepsVariables(Push(s6, Merge, []).0, decide, s, t.trail, e.trail, s6.nextId);
  }

  lemma FedByKeepsVariables(st: State, e: Expr, op: Opcode, args: seq<string>)
    requires Complete(op, args)
    ensures TransformSpec.FedBy(st, e, op, args).0.varMap == st.varMap
  {
    hide ToNode, Extends;
    ExprKeepsVariables(st, e);
  }

  lemma JoinKeepsVariables(st: State, decide: Id, s: Stmt, t: Trail, e: Trail, merge: Id)
    requires s.If?
    ensures JoinEdges(st, decide, s, t, e, merge).varMap == st.varMap
  {
    hide Extends, AllTerminal;
  }

  /** A parameter is an INPUT node of its own. */
  lemma {:induction false} ParamsAreInputs(st: State, names: seq<string>)
    ensures var r := Params(st, names);
      && Kept(st, r)
      && (forall x :: x in names ==> x in r.varMap && r.varMap[x] >= st.nextId && NodeAt(r, r.varMap[x], Input))
      && (forall x :: x !in names && x in st.varMap ==> x in r.varMap && r.varMap[x] == st.varMap[x])
    decreases |names|
  {
    hide NodeAt, Extends;
    if names != [] {
      var (s1, n) := Push(st, Input, ["name"]);
      var s2 := Bind(s1, names[0], n);
      var r := Params(st, names);
      PushedAt(st, Input, ["name"]);
      SameNodeAt(s1, s2, n, Input);
      ParamsAreInputs(s2, names[1..]);
      assert Kept(st, s2);
      KeptThen(st, s2, r);
      NodeStays(s2, r, n, Input);
      forall x | x in names
        ensures x in r.varMap && r.varMap[x] >= st.nextId && NodeAt(r, r.varMap[x], Input)
      {
        assert x == names[0] || x in names[1..];
      }
    }
  }
}
