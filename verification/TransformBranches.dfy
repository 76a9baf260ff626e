/** Which branch the plan takes where: the edges of branching nodes lead to the bodies that the program
    gives them. */
module TransformBranches {
  import opened Wrappers
  import opened Ast
  import opened Plan
  import opened TransformSpec
  import opened TransformSites

  // ── From the statement to the finished plan ─────────────────────

  /** Where the condition edges of a node lead. */
  ghost function Targets(edges: seq<Edge>, from: Id): set<(string, Id)> {
    set e | e in edges && e.from == from && e.condition.Some? :: (e.condition.value, e.to)
  }

  ghost predicate NodeAt(st: State, id: Id, op: Opcode) {
    exists n :: n in st.nodes && n.id == id && n.op == op
  }

  lemma NodeStays(a: State, b: State, id: Id, op: Opcode)
    requires Kept(a, b) && NodeAt(a, id, op)
    ensures NodeAt(b, id, op)
  {
    var n :| n in a.nodes && n.id == id && n.op == op;
    var k :| 0 <= k < |a.nodes| && a.nodes[k] == n;
    assert b.nodes[k] in b.nodes;
  }

  lemma EdgeStays(a: State, b: State, e: Edge)
    requires Kept(a, b) && e in a.edges
    ensures e in b.edges
  {
  }

  /** What is so for good of a statement that is walked in an accepted program. */
  lemma WalkStays(m: seq<TopLevel>, w: Walk)
    requires ModuleStep(m).Ok? && w in ModuleWalks(m)
    ensures End(w).Done? && w.st.faults == [] && Kept(End(w).st, ModuleStep(m).value)
    ensures forall e :: e in w.st.edges && e.condition.Some? ==> e.from < w.st.nextId
    ensures forall id :: w.st.nextId <= id < End(w).st.nextId ==>
      Targets(ModuleStep(m).value.edges, id) == Targets(End(w).st.edges, id)
  {
    ModuleSites(m);
    LiesStays(w, ModuleStep(m).value);
  }

  lemma LiesStays(w: Walk, b: State)
    requires Lies(w, Initial, b)
    ensures End(w).Done? && w.st.faults == [] && Kept(End(w).st, b)
    ensures forall e :: e in w.st.edges && e.condition.Some? ==> e.from < w.st.nextId
    ensures forall id :: w.st.nextId <= id < End(w).st.nextId ==> Targets(b.edges, id) == Targets(End(w).st.edges, id)
  {
    var early, late := End(w).st.edges, b.edges;
    forall id | w.st.nextId <= id < End(w).st.nextId
      ensures Targets(late, id) == Targets(early, id)
    {
      forall e | e in late && e.from == id && e.condition.Some?
        ensures e in early
      {
        var k :| 0 <= k < |late| && late[k] == e;
        assert k < |early|;
      }
    }
  }

  /** Every branching node of an accepted program is that of a statement of its kind. */
  lemma BranchNodesAreOpened(m: seq<TopLevel>, n: Node)
    requires ModuleStep(m).Ok? && n in ModuleStep(m).value.nodes && IsControl(n.op)
    ensures exists w :: w in ModuleWalks(m) && OpenedBy(n, w)
  {
    ModuleSites(m);
    var k :| 0 <= k < |ModuleStep(m).value.nodes| && ModuleStep(m).value.nodes[k] == n;
    assert Accounted(n, Initial, ModuleWalks(m), {}, Neither);
  }

  // ── Where a body begins and ends ────────────────────────────────

  /** Control enters the body here: at the first statement's first node. */
  ghost predicate BeginsAt(ws: set<Walk>, stmts: seq<Stmt>, id: Id) {
    stmts != [] && exists v :: v in ws && v.stmt == stmts[0] && End(v).Done? && End(v).first == id
  }

  /** Control leaves the body here: at the last statement's last node. */
  ghost predicate EndsAt(ws: set<Walk>, stmts: seq<Stmt>, id: Id) {
    stmts != [] && exists v :: v in ws && v.stmt == stmts[|stmts| - 1] && End(v).Done? && End(v).last == id
  }

  /** Here control enters the last statement. */
  ghost predicate LastBeginsAt(ws: set<Walk>, stmts: seq<Stmt>, id: Id) {
    stmts != [] && exists v :: v in ws && v.stmt == stmts[|stmts| - 1] && End(v).Done? && End(v).first == id
  }

  lemma {:induction false} BodyEnds(st: State, stmts: seq<Stmt>, chain: Chain, t: Trail)
    requires Body(st, stmts, chain, t).Walked? && stmts != []
    ensures var r, ws := Body(st, stmts, chain, t).trail, BodyWalks(st, stmts, chain, t);
      && r.first.Some? && (if t.first.Some? then r.first == t.first else BeginsAt(ws, stmts, r.first.value))
      && r.last.Some? && EndsAt(ws, stmts, r.last.value)
      && r.lastFirst.Some? && LastBeginsAt(ws, stmts, r.lastFirst.value)
    decreases |stmts|
  {
    hide StmtStep, Inside, ChainTo, IsTerminal;
    var r, ws := StmtStep(st, stmts[0]), BodyWalks(st, stmts, chain, t);
    var w, next := Walk(st, stmts[0]), Advance(t, r.first, r.last, IsTerminal(stmts[0]));
    var s2 := ChainTo(r.st, chain, t, r.first);
    assert ws == Walks(st, stmts[0]) + BodyWalks(s2, stmts[1..], chain, next) && w in Walks(st, stmts[0]);
    assert w in ws && End(w) == r;
    if |stmts| == 1 {
      assert stmts[1..] == [];
    } else {
      BodyEnds(s2, stmts[1..], chain, next);
    }
  }

  // ── If ──────────────────────────────────────────────────────────

  /** The last and the first node of a branch, under one condition. */
  ghost function Both(t: Trail, condition: string): set<(string, Id)> {
    (if t.last.Some? then {(condition, t.last.value)} else {}) + (if t.first.Some? then {(condition, t.first.value)} else {})
  }

  lemma GateTargets(st: State, decide: Id, t: Trail, condition: string)
    ensures Targets(Gate(st, decide, t, condition).edges, decide) == Targets(st.edges, decide) + Both(t, condition)
  {
    hide Targets;
    var s1 := if t.last.Some? then CondLink(st, decide, t.last.value, condition) else st;
    if t.last.Some? {
      LinkTargets(st, decide, t.last.value, condition);
    }
    if t.first.Some? && t.first != t.last {
      LinkTargets(s1, decide, t.first.value, condition);
    }
  }

  lemma LinkTargets(st: State, from: Id, to: Id, condition: string)
    ensures Targets(CondLink(st, from, to, condition).edges, from) == Targets(st.edges, from) + {(condition, to)}
  {
    var e := NewEdge(from, to, Some(condition), Data);
    var r := CondLink(st, from, to, condition).edges;
    assert r == st.edges + [e];
    assert e in r;
    forall x | x in Targets(st.edges, from)
      ensures x in Targets(r, from)
    {
      var f :| f in st.edges && f.from == from && f.condition.Some? && x == (f.condition.value, f.to);
      assert f in r;
    }
  }

  lemma SameTargets(a: State, b: State, from: Id)
    requires a.edges <= b.edges
    requires forall k :: |a.edges| <= k < |b.edges| && b.edges[k].condition.Some? ==> b.edges[k].from != from
    ensures Targets(b.edges, from) == Targets(a.edges, from)
  {
    forall e | e in b.edges && e.from == from && e.condition.Some?
      ensures e in a.edges
    {
      var k :| 0 <= k < |b.edges| && b.edges[k] == e;
      assert k < |a.edges|;
    }
  }

  lemma StretchTargets(a: State, b: State, ws: set<Walk>, id: Id)
    requires Stretch(a, b, ws, {}, Neither) && id < a.nextId
    ensures Targets(b.edges, id) == Targets(a.edges, id)
  {
    SameTargets(a, b, id);
  }

  lemma NoTargets(st: State, b: State, id: Id)
    requires forall e :: e in st.edges && e.condition.Some? ==> e.from < st.nextId
    requires NoConditions(st, b) && st.nextId <= id
    ensures Targets(b.edges, id) == {}
  {
    SameTargets(st, b, id);
  }

  /** The states in which the two branches of an `if` are walked. */
  ghost predicate Branches(st: State, s: Stmt, t: BodyOutcome, from: State, e: BodyOutcome)
    requires s.If?
  {
    && t == Body(TransformSpec.FedBy(st, s.test, Decide, ["condition"]).0, s.body, Unchained, NoTrail) && t.Walked?
    && from == t.st.(edges := from.edges) && e == Body(from, s.orelse, Unchained, NoTrail) && e.Walked?
  }

  lemma IfTargets(st: State, s: Stmt) returns (t: BodyOutcome, from: State, e: BodyOutcome)
    requires s.If? && st.faults == [] && StmtStep(st, s).Done?
    requires forall x :: x in st.edges && x.condition.Some? ==> x.from < st.nextId
    ensures Branches(st, s, t, from, e)
    ensures var r := StmtStep(st, s);
      && r.first + 1 == TransformSpec.FedBy(st, s.test, Decide, ["condition"]).0.nextId
      && Targets(r.st.edges, r.first) ==
         Both(t.trail, "true") + (if s.orelse == [] then {("false", r.last)} else Both(e.trail, "false"))
      && TrailIn(r.first + 1, t.st.nextId, t.trail) && TrailIn(t.st.nextId, e.st.nextId, e.trail)
      && e.st.nextId <= r.st.nextId && r.first + 1 <= t.st.nextId <= e.st.nextId
      && (s.orelse == [] ==> r.last == e.st.nextId && NodeAt(r.st, r.last, Merge))
      && NodeAt(r.st, r.first, Decide) && st.nextId <= r.first < r.st.nextId
  {
    hide Stretch, TransformSpec.FedBy, Gate, Join, TrailIn, NodeIs, NoConditions, Targets, NodeAt, Kept, Both, Body, StmtStep, Extends;
    var r := IfStep(st, s);
    IfIs(st, s);
    var (s2, decide) := TransformSpec.FedBy(st, s.test, Decide, ["condition"]);
    FedByOpen(st, s.test, Decide, ["condition"], Neither);
    NoTargets(st, s2, decide);
    NodeIsAt(st, s2, decide, Decide);
    t := Body(s2, s.body, Unchained, NoTrail);
    GatedBody(s2, s.body, decide, "true");
    from := Gate(t.st, decide, t.trail, "true");
    e := Body(from, s.orelse, Unchained, NoTrail);
    GatedBody(from, s.orelse, decide, "false");
    NoBranch(from, decide);
    if !(AllTerminal(s.body) && AllTerminal(s.orelse)) {
      var s6 := Gate(e.st, decide, e.trail, "false");
      var names := (t.st.varMap.Keys - s2.varMap.Keys) + (e.st.varMap.Keys - from.varMap.Keys);
      JoinTargets(s6, decide, s, t.trail, e.trail, names);
    }
  }

  lemma IfIs(st: State, s: Stmt)
    requires s.If? && st.faults == []
    ensures StmtStep(st, s) == IfStep(st, s)
  {
  }

  /** A branch with its gate. */
  lemma GatedBody(st: State, stmts: seq<Stmt>, decide: Id, condition: string)
    requires decide < st.nextId && NodeAt(st, decide, Decide)
    ensures var r := Body(st, stmts, Unchained, NoTrail);
      r.Walked? ==>
        var g := Gate(r.st, decide, r.trail, condition);
        && g == r.st.(edges := g.edges) && Targets(g.edges, decide) == Targets(st.edges, decide) + Both(r.trail, condition)
        && TrailIn(st.nextId, r.st.nextId, r.trail) && st.nextId <= r.st.nextId && NodeAt(g, decide, Decide)
  {
    hide Targets, NodeAt, Kept, Both, Gate, TrailIn;
    var r := Body(st, stmts, Unchained, NoTrail);
    BodyTargets(st, stmts, decide);
    if r.Walked? {
      NodeStays(st, r.st, decide, Decide);
      GateKeeps(r.st, decide, r.trail, condition);
      GateTargets(r.st, decide, r.trail, condition);
      SameNodeAt(r.st, Gate(r.st, decide, r.trail, condition), decide, Decide);
    }
  }

  lemma NodeIsAt(a: State, b: State, id: Id, op: Opcode)
    requires NodeIs(a, b, id, op)
    ensures NodeAt(b, id, op)
  {
    var k :| |a.nodes| <= k < |b.nodes| && b.nodes[k].id == id;
    assert b.nodes[k] in b.nodes;
  }

  lemma SameNodeAt(a: State, b: State, id: Id, op: Opcode)
    requires b.nodes == a.nodes && NodeAt(a, id, op)
    ensures NodeAt(b, id, op)
  {
  }

  lemma GateKeeps(st: State, decide: Id, t: Trail, condition: string)
    ensures Gate(st, decide, t, condition) == st.(edges := Gate(st, decide, t, condition).edges)
  {
  }

  lemma NoBranch(st: State, decide: Id)
    ensures Body(st, [], Unchained, NoTrail) == Walked(st, NoTrail) && Both(NoTrail, "false") == {}
  {
  }

  /** A branch gives no edges to the nodes before it. */
  lemma BodyTargets(st: State, stmts: seq<Stmt>, id: Id)
    requires id < st.nextId
    ensures var r := Body(st, stmts, Unchained, NoTrail);
      r.Walked? ==>
        && Targets(r.st.edges, id) == Targets(st.edges, id) && TrailIn(st.nextId, r.st.nextId, r.trail)
        && st.nextId <= r.st.nextId && Kept(st, r.st)
  {
    hide Stretch, TrailIn;
    BodySites(st, stmts, Unchained, NoTrail);
    NoTrailIn(st.nextId);
    var r := Body(st, stmts, Unchained, NoTrail);
    if r.Walked? {
      StretchTargets(st, r.st, BodyWalks(st, stmts, Unchained, NoTrail), id);
      StretchKept(st, r.st, BodyWalks(st, stmts, Unchained, NoTrail), {}, Neither);
    }
  }

  lemma JoinTargets(st: State, decide: Id, s: Stmt, t: Trail, e: Trail, names: set<string>)
    requires s.If?
    ensures var (r, merge) := Join(st, decide, s, t, e, names);
      && Targets(r.edges, decide) == Targets(st.edges, decide) + (if s.orelse == [] then {("false", merge)} else {})
      && merge == st.nextId && r.nextId == st.nextId + 1 && NodeAt(r, merge, Merge)
      && (forall id, op :: NodeAt(st, id, op) ==> NodeAt(r, id, op))
  {
    var (s1, merge) := Push(st, Merge, []);
    assert s1.nodes[|st.nodes|] in s1.nodes;
    var s2 := if t.last.Some? && !AllTerminal(s.body) then Link(s1, t.last.value, merge) else s1;
    var s3 := if e.last.Some? && !AllTerminal(s.orelse) then Link(s2, e.last.value, merge) else s2;
    SameTargets(st, s3, decide);
    if s.orelse == [] {
      LinkTargets(s3, decide, merge, "false");
    }
  }

  /** In the finished plan the edges for true of an `if` enter its body, the first node and the last one and no
      other; those for false enter the `else` in the same way, or the MERGE if there is none; and there are no others. */
  lemma IfBranches(m: seq<TopLevel>, w: Walk) returns (t: BodyOutcome, from: State, e: BodyOutcome)
    requires ModuleStep(m).Ok? && w in ModuleWalks(m) && w.stmt.If?
    ensures End(w).Done? && Branches(w.st, w.stmt, t, from, e)
    ensures var (d, s, final) := (End(w).first, w.stmt, ModuleStep(m).value);
      && NodeAt(final, d, Decide)
      && Targets(final.edges, d) ==
         Both(t.trail, "true") + (if s.orelse == [] then {("false", End(w).last)} else Both(e.trail, "false"))
      && TrailIn(d + 1, t.st.nextId, t.trail) && TrailIn(t.st.nextId, e.st.nextId, e.trail)
      && (s.orelse == [] ==> End(w).last == e.st.nextId && NodeAt(final, End(w).last, Merge))
  {
    hide Targets, TrailIn, Kept, StmtStep, ModuleStep, ModuleWalks, Body, Branches, Both, NodeAt, TransformSpec.FedBy;
    WalkStays(m, w);
    t, from, e := IfTargets(w.st, w.stmt);
    NodeStays(End(w).st, ModuleStep(m).value, End(w).first, Decide);
    if w.stmt.orelse == [] {
      NodeStays(End(w).st, ModuleStep(m).value, End(w).last, Merge);
    }
  }

  ghost predicate Leads(edges: seq<Edge>, from: Id, condition: string, to: Id) {
    exists e :: e in edges && e.from == from && e.condition == Some(condition) && e.to == to
  }

  /** One of these edges enters the last node of the body. */
  ghost predicate LeadsToEnd(edges: seq<Edge>, from: Id, condition: string, st: State, body: seq<Stmt>) {
    exists id: Id :: Leads(edges, from, condition, id) && EndsAt(BodyWalks(st, body, Unchained, NoTrail), body, id)
  }

  /** Told by numbers: true leads to nodes numbered while the body was walked, and to the last of it; false to
      nodes numbered while the `else` was walked, and to the last of it, or to the MERGE if there is no `else`. */
  lemma TrueEntersBody(m: seq<TopLevel>, w: Walk) returns (t: BodyOutcome, from: State, e: BodyOutcome)
    requires ModuleStep(m).Ok? && w in ModuleWalks(m) && w.stmt.If?
    ensures End(w).Done? && Branches(w.st, w.stmt, t, from, e)
    ensures var (d, s, edges) := (End(w).first, w.stmt, ModuleStep(m).value.edges);
      && (forall id: Id :: Leads(edges, d, "true", id) ==> d < id < t.st.nextId)
      && (forall id: Id :: Leads(edges, d, "false", id) ==>
            if s.orelse == [] then id == End(w).last && NodeAt(ModuleStep(m).value, id, Merge) else t.st.nextId <= id < e.st.nextId)
      && (forall condition, id: Id :: Leads(edges, d, condition, id) ==> condition == "true" || condition == "false")
      && (s.body != [] ==> LeadsToEnd(edges, d, "true", TransformSpec.FedBy(w.st, s.test, Decide, ["condition"]).0, s.body))
      && (s.orelse != [] ==> LeadsToEnd(edges, d, "false", from, s.orelse))
  {
    hide Targets, TrailIn, StmtStep, ModuleStep, ModuleWalks, Body, Branches, Both, NodeAt, BodyWalks, TransformSpec.FedBy, Leads, LeadsToEnd;
    t, from, e := IfBranches(m, w);
    var d, s, edges := End(w).first, w.stmt, ModuleStep(m).value.edges;
    var s2 := TransformSpec.FedBy(w.st, s.test, Decide, ["condition"]).0;
    LeadsIs(edges, d);
    BranchesAre(w.st, s, t, from, e);
    TrailFirst(d + 1, t.st.nextId, t.trail);
    TrailFirst(t.st.nextId, e.st.nextId, e.trail);
    BothLead(t.trail, "true");
    BothLead(e.trail, "false");
    if s.body != [] {
      LastIsLed(s2, s.body, edges, d, "true");
    }
    if s.orelse != [] {
      LastIsLed(from, s.orelse, edges, d, "false");
    }
  }

  lemma LeadsIs(edges: seq<Edge>, from: Id)
    ensures forall condition, id: Id :: Leads(edges, from, condition, id) <==> (condition, id) in Targets(edges, from)
  {
  }

  lemma BranchesAre(st: State, s: Stmt, t: BodyOutcome, from: State, e: BodyOutcome)
    requires s.If? && Branches(st, s, t, from, e)
    ensures t == Body(TransformSpec.FedBy(st, s.test, Decide, ["condition"]).0, s.body, Unchained, NoTrail) && t.Walked?
    ensures e == Body(from, s.orelse, Unchained, NoTrail) && e.Walked?
  {
  }

  lemma BothLead(t: Trail, condition: string)
    ensures forall c, id: Id :: (c, id) in Both(t, condition) <==> c == condition && (t.last == Some(id) || t.first == Some(id))
  {
  }

  lemma LastIsLed(st: State, body: seq<Stmt>, edges: seq<Edge>, from: Id, condition: string)
    requires body != [] && Body(st, body, Unchained, NoTrail).Walked?
    requires forall id: Id :: Body(st, body, Unchained, NoTrail).trail.last == Some(id) ==> Leads(edges, from, condition, id)
    ensures LeadsToEnd(edges, from, condition, st, body)
  {
    hide Leads, EndsAt, BodyWalks, Body;
    BodyEnds(st, body, Unchained, NoTrail);
  }
}
