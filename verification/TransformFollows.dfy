/** The walk of the transform does what the trace of the program says. */
module TransformFollows {
  import opened Wrappers
  import opened Ast
  import opened Plan
  import opened TransformSpec
  import opened TransformTrace

  // ── What a stretch of the walk does to the plan ─────────────────

  ghost predicate Gated(edges: seq<Edge>, id: Id) {
    && (exists e :: e in edges && e.from == id && e.condition == Some("true"))
    && (exists e :: e in edges && e.from == id && e.condition == Some("false"))
  }

  ghost predicate HasOut(edges: seq<Edge>, id: Id) {
    exists e :: e in edges && e.from == id
  }

  /** The node has the edges that its opcode asks for, or the trace says why not. */
  ghost predicate Ruled(n: Node, edges: seq<Edge>, t: seq<Event>) {
    match n.op
    case Decide => Gated(edges, n.id) || AssertPushed in t || EmptyBody in t
    case Loop => HasOut(edges, n.id) || EmptyBody in t
    case Parallel => HasOut(edges, n.id) || EmptyBody in t
    case _ => true
  }

  /** Nodes and edges are only added, the new nodes under new ids. */
  ghost predicate Adds(a: State, b: State) {
    && a.edges <= b.edges && a.nextId <= b.nextId && |a.nodes| <= |b.nodes|
    && (forall k :: 0 <= k < |a.nodes| ==> b.nodes[k].id == a.nodes[k].id && b.nodes[k].op == a.nodes[k].op)
    && (forall k :: |a.nodes| <= k < |b.nodes| ==> a.nextId <= b.nodes[k].id < b.nextId)
  }

  /** New conditional edges leave new nodes, or those in `open`. */
  ghost predicate GatesNew(a: State, b: State, open: set<Id>) {
    forall k :: |a.edges| <= k < |b.edges| && b.edges[k].condition.Some? ==>
      b.edges[k].from < b.nextId && (b.edges[k].from >= a.nextId || b.edges[k].from in open)
  }

  ghost predicate NewRuled(a: State, b: State, t: seq<Event>, open: set<Id>) {
    forall k :: |a.nodes| <= k < |b.nodes| && b.nodes[k].id !in open ==> Ruled(b.nodes[k], b.edges, t)
  }

  /** None of the edges from `k` on that leave `id` has a condition. */
  ghost predicate Ungated(edges: seq<Edge>, k: nat, id: Id) {
    forall i :: k <= i < |edges| && edges[i].from == id ==> edges[i].condition.None?
  }

  ghost predicate LoneAt(a: State, b: State, open: set<Id>, k: nat) {
    && |a.nodes| <= k < |b.nodes| && b.nodes[k].op == Decide && b.nodes[k].id !in open
    && Ungated(b.edges, |a.edges|, b.nodes[k].id)
  }

  /** A new DECIDE has no branches. */
  ghost predicate NewLone(a: State, b: State, open: set<Id>) {
    exists k: nat :: LoneAt(a, b, open, k)
  }

  /** From `a` to `b` the walk did what `t` says. The nodes in `open` still wait for their edges. */
  ghost predicate Follows(a: State, b: State, t: seq<Event>, open: set<Id>) {
    && Play(a.faults, t) == Ok(b.faults)
    && (BareSwitch(b.nodes) <==> BareSwitch(a.nodes) || SwitchPushed in t)
    && Adds(a, b) && GatesNew(a, b, open) && NewRuled(a, b, t, open)
    && (AssertPushed in t ==> NewLone(a, b, open))
  }

  lemma FollowsThen(a: State, b: State, c: State, t: seq<Event>, u: seq<Event>, open: set<Id>, more: set<Id>)
    requires Follows(a, b, t, open) && Follows(b, c, u, more)
    requires forall id :: id in open ==> id < b.nextId
    requires forall id :: id in more ==> id in open || id < a.nextId
    ensures Follows(a, c, t + u, open + more)
  {
    PlayThen(a.faults, t, u);
    assert Adds(a, c);
    assert GatesNew(a, c, open + more) by {
      hide Play, BareSwitch;
      forall k | |a.edges| <= k < |c.edges| && c.edges[k].condition.Some?
        ensures c.edges[k].from < c.nextId && (c.edges[k].from >= a.nextId || c.edges[k].from in open + more)
      {
        if k < |b.edges| {
          assert c.edges[k] == b.edges[k];
        }
      }
    }
    assert NewRuled(a, c, t + u, open + more) by {
      forall k | |a.nodes| <= k < |c.nodes| && c.nodes[k].id !in open + more
        ensures Ruled(c.nodes[k], c.edges, t + u)
      {
        if k < |b.nodes| {
          RuledLater(b.nodes[k], c.nodes[k], b.edges, c.edges, t, t + u);
        } else {
          RuledLater(c.nodes[k], c.nodes[k], c.edges, c.edges, u, t + u);
        }
      }
    }
    if AssertPushed in t {
      LoneStays(a, b, c, open, more);
    } else if AssertPushed in u {
      LoneBefore(a, b, c, open, more);
    }
  }

  lemma FollowsOn(a: State, b: State, c: State, t: seq<Event>, u: seq<Event>)
    requires Follows(a, b, t, {}) && Follows(b, c, u, {})
    ensures Follows(a, c, t + u, {})
  {
    hide Follows;
    FollowsThen(a, b, c, t, u, {}, {});
    var none: set<Id> := {};
    assert none + none == none;
  }

  lemma RuledLater(n: Node, m: Node, edges: seq<Edge>, later: seq<Edge>, t: seq<Event>, u: seq<Event>)
    requires Ruled(n, edges, t) && m.id == n.id && m.op == n.op && edges <= later && (forall e :: e in t ==> e in u)
    ensures Ruled(m, later, u)
  {
    assert forall e :: e in edges ==> e in later;
  }

  lemma LoneStays(a: State, b: State, c: State, open: set<Id>, more: set<Id>)
    requires Adds(a, b) && Adds(b, c) && GatesNew(b, c, more) && NewLone(a, b, open)
    requires forall id :: id in more ==> id in open || id < a.nextId
    ensures NewLone(a, c, open + more)
  {
    var k: nat :| LoneAt(a, b, open, k);
    var id := b.nodes[k].id;
    forall i | |a.edges| <= i < |c.edges| && c.edges[i].from == id
      ensures c.edges[i].condition.None?
    {
      if i < |b.edges| {
        assert c.edges[i] == b.edges[i];
      }
    }
    assert LoneAt(a, c, open + more, k);
  }

  lemma LoneBefore(a: State, b: State, c: State, open: set<Id>, more: set<Id>)
    requires Adds(a, b) && Adds(b, c) && GatesNew(a, b, open) && NewLone(b, c, more)
    requires forall id :: id in open ==> id < b.nextId
    ensures NewLone(a, c, open + more)
  {
    var k: nat :| LoneAt(b, c, more, k);
    var id := c.nodes[k].id;
    forall i | |a.edges| <= i < |c.edges| && c.edges[i].from == id
      ensures c.edges[i].condition.None?
    {
      if i < |b.edges| {
        assert c.edges[i] == b.edges[i];
      }
    }
    assert LoneAt(a, c, open + more, k);
  }

  // ── Elementary steps ────────────────────────────────────────────

  /** Only unconditional edges, variables, unused ids and arguments besides a condition are new. */
  ghost predicate Quiet(a: State, b: State) {
    && b.faults == a.faults && a.edges <= b.edges && a.nextId <= b.nextId && |b.nodes| == |a.nodes|
    && (forall k :: |a.edges| <= k < |b.edges| ==> b.edges[k].condition.None?)
    && (forall k :: 0 <= k < |a.nodes| ==> b.nodes[k].id == a.nodes[k].id && b.nodes[k].op == a.nodes[k].op)
    && (BareSwitch(b.nodes) <==> BareSwitch(a.nodes))
  }

  lemma QuietThen(a: State, b: State, c: State)
    requires Quiet(a, b) && Quiet(b, c)
    ensures Quiet(a, c)
  {
    forall k | |a.edges| <= k < |c.edges|
      ensures c.edges[k].condition.None?
    {
      if k < |b.edges| {
        assert c.edges[k] == b.edges[k];
      }
    }
  }

  lemma QuietFollows(a: State, b: State)
    requires Quiet(a, b)
    ensures Follows(a, b, [], {})
  {
  }

  lemma ThenQuiet(a: State, b: State, c: State, t: seq<Event>, open: set<Id>)
    requires Follows(a, b, t, open) && Quiet(b, c) && forall id :: id in open ==> id < b.nextId
    ensures Follows(a, c, t, open)
  {
    QuietFollows(b, c);
    FollowsThen(a, b, c, t, [], open, {});
    assert t + [] == t && open + {} == open;
  }

  lemma QuietBefore(a: State, b: State, c: State, t: seq<Event>, open: set<Id>)
    requires Quiet(a, b) && Follows(b, c, t, open) && forall id :: id in open ==> id < a.nextId
    ensures Follows(a, c, t, open)
  {
    QuietFollows(a, b);
    FollowsThen(a, b, c, [], t, {}, open);
    assert [] + t == t && {} + open == open;
  }

  /** Nodes whose edges come later. */
  predicate Branches(op: Opcode) {
    op == Decide || op == Loop || op == Parallel
  }

  lemma PushFollows(st: State, op: Opcode, args: seq<string>)
    requires Complete(op, args) && op != Switch
    ensures Follows(st, Push(st, op, args).0, [], if Branches(op) then {st.nextId} else {})
  {
    var r := Push(st, op, args).0;
    assert r.nodes == st.nodes + [Node(st.nextId, op, args, st.branch, st.group)];
    assert NewRuled(st, r, [], if Branches(op) then {st.nextId} else {});
  }

  lemma PushSwitchFollows(st: State, args: seq<string>)
    requires "condition" !in args
    ensures Follows(st, Push(st, Switch, args).0, [SwitchPushed], {st.nextId})
  {
    var r := Push(st, Switch, args).0;
    assert r.nodes[|st.nodes|] in r.nodes;
  }

  lemma RecordFollows(st: State, f: Fault)
    ensures Follows(st, AddFault(st, f), [Record(f)], {})
  {
    assert [Record(f)][1..] == [];
  }

  lemma EnterFollows(st: State)
    requires st.faults == []
    ensures Follows(st, st, [Enter], {})
  {
    assert [Enter][1..] == [];
  }

  lemma LinkQuiet(st: State, from: Id, to: Id)
    ensures Quiet(st, Link(st, from, to)) && Quiet(st, ControlLink(st, from, to))
  {
  }

  lemma ChainQuiet(st: State, chain: Chain, t: Trail, first: Id)
    ensures Quiet(st, ChainTo(st, chain, t, first))
  {
  }

  lemma MarkQuiet(st: State, id: Id)
    ensures Quiet(st, st.(nodes := MarkOutput(st.nodes, id)))
  {
    var marked := MarkOutput(st.nodes, id);
    assert "condition" != "output";
    if BareSwitch(st.nodes) {
      MarkedNodes(st.nodes, id);
    }
    if BareSwitch(marked) {
      var i :| 0 <= i < |marked| && marked[i].op == Switch && "condition" !in marked[i].args;
      assert st.nodes[i] in st.nodes && "condition" !in st.nodes[i].args;
    }
  }

  // ── Expressions ─────────────────────────────────────────────────

  lemma {:induction false} WireQuiet(st: State, e: Expr, target: Id)
    ensures Quiet(st, WireDeps(st, e, target))
    decreases e, 1
  {
    hide Quiet;
    match e
    case Name(id) =>
      QuietSelf(st);
      if id in st.varMap {
        LinkQuiet(st, st.varMap[id], target);
      }
    case Attribute(value, _) => WireQuiet(st, value, target);
    case Subscript(value, slice) =>
      WireQuiet(st, value, target);
      WireQuiet(WireDeps(st, value, target), slice, target);
      QuietThen(st, WireDeps(st, value, target), WireDeps(st, e, target));
    case Call(func, args, keywords) =>
      var s1 := WireDeps(st, func, target);
      var s2 := WireAll(s1, args, target);
      WireQuiet(st, func, target);
      WireAllQuiet(s1, args, target);
      WireKeywordsQuiet(s2, keywords, target);
      QuietThen(st, s1, s2);
      QuietThen(st, s2, WireDeps(st, e, target));
    case Compound(parts) => WireAllQuiet(st, parts, target);
    case Leaf => QuietSelf(st);
  }

  lemma QuietSelf(st: State)
    ensures Quiet(st, st)
  {
  }

  lemma {:induction false} WireAllQuiet(st: State, es: seq<Expr>, target: Id)
    ensures Quiet(st, WireAll(st, es, target))
    decreases es, 0
  {
    hide Quiet;
    if es == [] {
      QuietSelf(st);
    } else {
      WireQuiet(st, es[0], target);
      WireAllQuiet(WireDeps(st, es[0], target), es[1..], target);
      QuietThen(st, WireDeps(st, es[0], target), WireAll(st, es, target));
    }
  }

  lemma {:induction false} WireKeywordsQuiet(st: State, ks: seq<Keyword>, target: Id)
    ensures Quiet(st, WireKeywords(st, ks, target))
    decreases ks, 0
  {
    hide Quiet;
    if ks == [] {
      QuietSelf(st);
    } else {
      WireQuiet(st, ks[0].value, target);
      WireKeywordsQuiet(WireDeps(st, ks[0].value, target), ks[1..], target);
      QuietThen(st, WireDeps(st, ks[0].value, target), WireKeywords(st, ks, target));
    }
  }

  lemma {:induction false} LinkAllQuiet(st: State, froms: seq<Id>, to: Id)
    ensures Quiet(st, LinkAll(st, froms, to))
    decreases froms
  {
    hide Quiet;
    if froms == [] {
      QuietSelf(st);
    } else {
      LinkQuiet(st, froms[0], to);
      LinkAllQuiet(Link(st, froms[0], to), froms[1..], to);
      QuietThen(st, Link(st, froms[0], to), LinkAll(st, froms, to));
    }
  }

  lemma {:induction false} ExprFollows(st: State, e: Expr)
    ensures Follows(st, ToNode(st, e).0, ExprTrace(e), {})
    decreases e, 1
  {
    hide Follows, Quiet, IsBuiltin;
    match e
    case Call(_, _, _) => CallFollows(st, e);
    case _ =>
      var s1 := Push(st, Calc, ["expr"]).0;
      PushFollows(st, Calc, ["expr"]);
      WireQuiet(s1, e, st.nextId);
      ThenQuiet(st, s1, WireDeps(s1, e, st.nextId), [], {});
  }

  lemma {:induction false} CallFollows(st: State, e: Expr)
    requires e.Call?
    ensures Follows(st, ToNode(st, e).0, ExprTrace(e), {})
    decreases e, 0, 1
  {
    hide Follows, Quiet, IsBuiltin;
    match Callee(e.func)
    case None =>
      RecordFollows(st, DynamicCall);
      GenQuiet(AddFault(st, DynamicCall));
      ThenQuiet(st, AddFault(st, DynamicCall), ToNode(st, e).0, [Record(DynamicCall)], {});
    case Some(name) =>
      if name == "call" || name == "act" {
        ArgumentsFollow(st, e, Opcode.Call, ["type", "target"] + KeywordNames(e.keywords), true);
      } else if name == "sleep" {
        ArgumentsFollow(st, e, Wait, ["duration_secs"], false);
      } else if IsBuiltin(name) {
        var (s1, ids) := ToNodes(st, e.args);
        var s2 := Push(s1, Calc, ["expr"]).0;
        ToNodesFollow(st, e.args);
        PushFollows(s1, Calc, ["expr"]);
        FollowsOn(st, s1, s2, ExprsTrace(e.args), []);
        assert ExprsTrace(e.args) + [] == ExprsTrace(e.args);
        LinkAllQuiet(s2, ids, s1.nextId);
        ThenQuiet(st, s2, LinkAll(s2, ids, s1.nextId), ExprsTrace(e.args), {});
      } else {
        ArgumentsFollow(st, e, Calc, ["expr"], true);
      }
  }

  lemma GenQuiet(st: State)
    ensures Quiet(st, GenId(st).0)
  {
  }

  /** A call that is numbered first, and its arguments. */
  lemma {:induction false} ArgumentsFollow(st: State, e: Expr, op: Opcode, names: seq<string>, withKeywords: bool)
    requires e.Call? && Complete(op, names) && op != Switch && !Branches(op)
    ensures var s2 := Feed(Push(st, op, names).0, e.args, st.nextId);
      Follows(st, if withKeywords then FeedKeywords(s2, e.keywords, st.nextId) else s2,
        if withKeywords then ExprsTrace(e.args) + KeywordsTrace(e.keywords) else ExprsTrace(e.args), {})
    decreases e, 0, 0
  {
    hide Follows, Quiet;
    var n := st.nextId;
    var s1 := Push(st, op, names).0;
    var s2 := Feed(s1, e.args, n);
    PushFollows(st, op, names);
    FeedFollows(s1, e.args, n);
    FollowsOn(st, s1, s2, [], ExprsTrace(e.args));
    assert [] + ExprsTrace(e.args) == ExprsTrace(e.args);
    if withKeywords {
      FeedKeywordsFollow(s2, e.keywords, n);
      FollowsOn(st, s2, FeedKeywords(s2, e.keywords, n), ExprsTrace(e.args), KeywordsTrace(e.keywords));
    }
  }

  lemma {:induction false} FeedFollows(st: State, es: seq<Expr>, target: Id)
    ensures Follows(st, Feed(st, es, target), ExprsTrace(es), {})
    decreases es, 0
  {
    hide Follows, Quiet;
    if es == [] {
      QuietSelf(st);
      QuietFollows(st, st);
    } else {
      var (s1, a) := ToNode(st, es[0]);
      ExprFollows(st, es[0]);
      LinkQuiet(s1, a, target);
      ThenQuiet(st, s1, Link(s1, a, target), ExprTrace(es[0]), {});
      FeedFollows(Link(s1, a, target), es[1..], target);
      FollowsOn(st, Link(s1, a, target), Feed(st, es, target), ExprTrace(es[0]), ExprsTrace(es[1..]));
    }
  }

  lemma {:induction false} FeedKeywordsFollow(st: State, ks: seq<Keyword>, target: Id)
    ensures Follows(st, FeedKeywords(st, ks, target), KeywordsTrace(ks), {})
    decreases ks, 0
  {
    hide Follows, Quiet;
    if ks == [] {
      QuietSelf(st);
      QuietFollows(st, st);
    } else {
      var (s1, a) := ToNode(st, ks[0].value);
      ExprFollows(st, ks[0].value);
      LinkQuiet(s1, a, target);
      ThenQuiet(st, s1, Link(s1, a, target), ExprTrace(ks[0].value), {});
      FeedKeywordsFollow(Link(s1, a, target), ks[1..], target);
      FollowsOn(st, Link(s1, a, target), FeedKeywords(st, ks, target), ExprTrace(ks[0].value), KeywordsTrace(ks[1..]));
    }
  }

  lemma {:induction false} ToNodesFollow(st: State, es: seq<Expr>)
    ensures Follows(st, ToNodes(st, es).0, ExprsTrace(es), {})
    decreases es, 0
  {
    hide Follows, Quiet;
    if es == [] {
      QuietSelf(st);
      QuietFollows(st, st);
    } else {
      var s1 := ToNode(st, es[0]).0;
      ExprFollows(st, es[0]);
      ToNodesFollow(s1, es[1..]);
      FollowsOn(st, s1, ToNodes(st, es).0, ExprTrace(es[0]), ExprsTrace(es[1..]));
    }
  }

  // ── Statements ──────────────────────────────────────────────────

  ghost predicate StmtAgrees(st: State, r: Outcome, t: seq<Event>) {
    match r
    case Stopped(faults) => Play(st.faults, t) == Err(faults)
    case Done(b, _, _) => Follows(st, b, t, {})
  }

  ghost predicate BodyAgrees(st: State, r: BodyOutcome, t: seq<Event>, open: set<Id>) {
    match r
    case Halted(faults) => Play(st.faults, t) == Err(faults)
    case Walked(b, _) => Follows(st, b, t, open)
  }

  lemma StopsLater(a: State, b: State, t: seq<Event>, u: seq<Event>, open: set<Id>)
    requires Follows(a, b, t, open) && Play(b.faults, u).Err?
    ensures Play(a.faults, t + u) == Play(b.faults, u)
  {
    PlayThen(a.faults, t, u);
  }

  lemma StopsEarlier(faults: seq<Fault>, t: seq<Event>, u: seq<Event>)
    requires Play(faults, t).Err?
    ensures Play(faults, t + u) == Play(faults, t)
  {
    PlayThen(faults, t, u);
  }

  /** One more conditional edge from a node that waits for its edges. */
  lemma CondLinkFollows(a: State, b: State, t: seq<Event>, open: set<Id>, from: Id, to: Id, condition: string)
    requires Follows(a, b, t, open) && from in open && from < b.nextId
    ensures Follows(a, CondLink(b, from, to, condition), t, open)
  {
    var c := CondLink(b, from, to, condition);
    assert NewRuled(a, c, t, open) by {
      forall k | |a.nodes| <= k < |c.nodes| && c.nodes[k].id !in open
        ensures Ruled(c.nodes[k], c.edges, t)
      {
        RuledLater(b.nodes[k], c.nodes[k], b.edges, c.edges, t, t);
      }
    }
    assert GatesNew(a, c, open) by {
      forall k | |a.edges| <= k < |c.edges| && c.edges[k].condition.Some?
        ensures c.edges[k].from < c.nextId && (c.edges[k].from >= a.nextId || c.edges[k].from in open)
      {
        if k < |b.edges| {
          assert c.edges[k] == b.edges[k];
        }
      }
    }
    if AssertPushed in t {
      var k: nat :| LoneAt(a, b, open, k);
      assert LoneAt(a, c, open, k);
    }
  }

  lemma GateFollows(a: State, b: State, t: seq<Event>, decide: Id, trail: Trail, condition: string)
    requires Follows(a, b, t, {decide}) && decide < b.nextId
    ensures Follows(a, Gate(b, decide, trail, condition), t, {decide})
  {
    hide Follows;
    if trail.last.Some? {
      CondLinkFollows(a, b, t, {decide}, decide, trail.last.value, condition);
    }
    var s1 := if trail.last.Some? then CondLink(b, decide, trail.last.value, condition) else b;
    if trail.first.Some? && trail.first != trail.last {
      CondLinkFollows(a, s1, t, {decide}, decide, trail.first.value, condition);
    }
  }

  /** A node that waited has what it waited for. */
  lemma Close(a: State, b: State, t: seq<Event>, id: Id)
    requires Follows(a, b, t, {id}) && a.nextId <= id
    requires forall k :: |a.nodes| <= k < |b.nodes| && b.nodes[k].id == id ==> Ruled(b.nodes[k], b.edges, t)
    ensures Follows(a, b, t, {})
  {
    assert GatesNew(a, b, {});
    if AssertPushed in t {
      var k: nat :| LoneAt(a, b, {id}, k);
      assert LoneAt(a, b, {}, k);
    }
  }

  /** The new node `id` has this opcode. */
  ghost predicate OpAt(a: State, b: State, id: Id, op: Opcode) {
    forall k :: |a.nodes| <= k < |b.nodes| && b.nodes[k].id == id ==> b.nodes[k].op == op
  }

  lemma OpPushed(a: State, b: State, op: Opcode, args: seq<string>)
    requires Adds(a, b) && Complete(op, args)
    ensures OpAt(a, Push(b, op, args).0, b.nextId, op)
  {
  }

  lemma OpStays(a: State, b: State, c: State, id: Id, op: Opcode)
    requires OpAt(a, b, id, op) && Adds(a, b) && Adds(b, c) && id < b.nextId
    ensures OpAt(a, c, id, op)
  {
  }

  lemma FollowsAdds(a: State, b: State, t: seq<Event>, open: set<Id>)
    requires Follows(a, b, t, open)
    ensures Adds(a, b) && Play(a.faults, t) == Ok(b.faults)
  {
  }

  lemma {:induction false} StmtFollows(st: State, s: Stmt)
    ensures StmtAgrees(st, StmtStep(st, s), StmtTrace(s))
    decreases s, 2
  {
    hide Follows, Quiet;
    if st.faults == [] {
      EnterFollows(st);
      StmtWalks(st, s);
      var r := StmtStep(st, s);
      if r.Stopped? {
        StopsLater(st, st, [Enter], WalkTrace(s), {});
      } else {
        FollowsOn(st, st, r.st, [Enter], WalkTrace(s));
      }
    } else {
      assert StmtTrace(s)[0] == Enter;
    }
  }

  lemma {:induction false} StmtWalks(st: State, s: Stmt)
    requires st.faults == []
    ensures StmtAgrees(st, StmtStep(st, s), WalkTrace(s))
    decreases s, 1
  {
    hide Follows, Quiet, Play;
    match s
    case If(_, _, _) => IfFollows(st, s);
    case For(_, _, _) => ForFollows(st, s);
    case With(_, _) => WithFollows(st, s);
    case Match(_, _) => MatchFollows(st, s);
    case ExprStmt(value) => ExprFollows(st, value);
    case Assert(test) => AssertFollows(st, test);
    case OtherStmt =>
      RecordFollows(st, UnsupportedStatement);
      GenQuiet(AddFault(st, UnsupportedStatement));
      ThenQuiet(st, AddFault(st, UnsupportedStatement), StmtStep(st, s).st, [Record(UnsupportedStatement)], {});
    case Pass =>
      GenQuiet(st);
      QuietFollows(st, GenId(st).0);
    case Break => PushFollows(st, Act, ["type"]);
    case Continue => PushFollows(st, Act, ["type"]);
    case Raise => PushFollows(st, Error, ["message"]);
    case _ => SimpleFollows(st, s);
  }

  lemma FallbackFollows(a: State, st: State, t: seq<Event>, f: Fault)
    requires Follows(a, st, t, {})
    ensures Follows(a, Fallback(st, f).st, t + [Record(f)], {})
  {
    hide Follows, Quiet;
    var s1 := AddFault(st, f);
    RecordFollows(st, f);
    FollowsOn(a, st, s1, t, [Record(f)]);
    GenQuiet(s1);
    GenQuiet(GenId(s1).0);
    QuietThen(s1, GenId(s1).0, Fallback(st, f).st);
    ThenQuiet(a, s1, Fallback(st, f).st, t + [Record(f)], {});
  }

  lemma FallbackAlone(st: State, f: Fault)
    ensures Follows(st, Fallback(st, f).st, [Record(f)], {})
  {
    SelfFollows(st);
    FallbackFollows(st, st, [], f);
    assert [] + [Record(f)] == [Record(f)];
  }

  lemma SelfFollows(st: State)
    ensures Follows(st, st, [], {})
  {
  }

  lemma BindQuiet(st: State, name: string, id: Id)
    ensures Quiet(st, Bind(st, name, id))
  {
  }

  lemma SimpleFollows(st: State, s: Stmt)
    requires s.Assign? || s.AnnAssign? || s.AugAssign? || s.Return?
    requires st.faults == []
    ensures StmtAgrees(st, StmtStep(st, s), WalkTrace(s))
  {
    hide Follows, Quiet, Play;
    SelfFollows(st);
    match s
    case Assign(targets, value) =>
      if |targets| != 1 {
        FallbackAlone(st, ManyTargets);
      } else if !targets[0].Name? {
        FallbackAlone(st, TargetNotName);
      } else {
        var (s1, n) := ToNode(st, value);
        var s2 := s1.(nodes := MarkOutput(s1.nodes, n));
        ExprFollows(st, value);
        MarkQuiet(s1, n);
        BindQuiet(s2, targets[0].id, n);
        QuietThen(s1, s2, Bind(s2, targets[0].id, n));
        ThenQuiet(st, s1, Bind(s2, targets[0].id, n), ExprTrace(value), {});
      }
    case AnnAssign(target, annotated) =>
      if !target.Name? {
        FallbackAlone(st, TargetNotName);
      } else if annotated.Some? {
        var (s1, n) := ToNode(st, annotated.value);
        ExprFollows(st, annotated.value);
        BindQuiet(s1, target.id, n);
        ThenQuiet(st, s1, Bind(s1, target.id, n), ExprTrace(annotated.value), {});
      } else {
        var (s1, n) := Push(st, Input, ["name"]);
        PushFollows(st, Input, ["name"]);
        BindQuiet(s1, target.id, n);
        ThenQuiet(st, s1, Bind(s1, target.id, n), [], {});
      }
    case AugAssign(target, value) =>
      if !target.Name? {
        FallbackAlone(st, TargetNotName);
      } else {
        assert target == Name(target.id);
        AugFollows(st, target.id, value);
      }
    case Return(returned) =>
      if returned.Some? {
        FedByFollows(st, returned.value, Act, ["type"]);
      } else {
        PushFollows(st, Act, ["type"]);
      }
  }

  lemma AugFollows(st: State, name: string, value: Expr)
    ensures Follows(st, AugAssignStep(st, Name(name), value).st, ExprTrace(value), {})
  {
    hide Follows, Quiet;
    var (s1, prior) := ResolveVar(st, name);
    ResolveFollows(st, name);
    var (s2, rhs) := ToNode(s1, value);
    ExprFollows(s1, value);
    FollowsOn(st, s1, s2, [], ExprTrace(value));
    assert [] + ExprTrace(value) == ExprTrace(value);
    var (s3, n) := Push(s2, Calc, ["expr", "output"]);
    PushFollows(s2, Calc, ["expr", "output"]);
    FollowsOn(st, s2, s3, ExprTrace(value), []);
    assert ExprTrace(value) + [] == ExprTrace(value);
    var s4, s5 := Link(s3, prior, n), Link(Link(s3, prior, n), rhs, n);
    LinkQuiet(s3, prior, n);
    LinkQuiet(s4, rhs, n);
    BindQuiet(s5, name, n);
    QuietThen(s3, s4, s5);
    QuietThen(s3, s5, Bind(s5, name, n));
    ThenQuiet(st, s3, Bind(s5, name, n), ExprTrace(value), {});
  }

  lemma ResolveFollows(st: State, name: string)
    ensures Follows(st, ResolveVar(st, name).0, [], {})
  {
    hide Follows, Quiet;
    if name in st.varMap {
      SelfFollows(st);
    } else {
      var (s1, n) := Push(st, Input, ["name"]);
      PushFollows(st, Input, ["name"]);
      BindQuiet(s1, name, n);
      ThenQuiet(st, s1, Bind(s1, name, n), [], {});
    }
  }

  /** A node fed by the value of an expression; if it has branches they are still to come. */
  lemma FedByFollows(st: State, e: Expr, op: Opcode, args: seq<string>)
    requires Complete(op, args) && op != Switch
    ensures var (r, n) := FedBy(st, e, op, args);
      && Follows(st, r, ExprTrace(e), if Branches(op) then {n} else {})
      && st.nextId <= n < r.nextId && OpAt(st, r, n, op)
  {
    hide Follows, Quiet, OpAt;
    var (s1, v) := ToNode(st, e);
    var (s2, n) := Push(s1, op, args);
    var open := if Branches(op) then {n} else {};
    ExprFollows(st, e);
    FollowsAdds(st, s1, ExprTrace(e), {});
    OpPushed(st, s1, op, args);
    PushFollows(s1, op, args);
    FollowsPush(st, s1, s2, ExprTrace(e), [], open);
    assert ExprTrace(e) + [] == ExprTrace(e);
    LinkQuiet(s2, v, n);
    ThenQuiet(st, s2, Link(s2, v, n), ExprTrace(e), open);
    FollowsAdds(st, s2, ExprTrace(e), open);
    QuietFollows(s2, Link(s2, v, n));
    FollowsAdds(s2, Link(s2, v, n), [], {});
    OpStays(st, s2, Link(s2, v, n), n, op);
  }

  /** The second stretch opens a node of its own. */
  lemma FollowsPush(a: State, b: State, c: State, t: seq<Event>, u: seq<Event>, open: set<Id>)
    requires Follows(a, b, t, {}) && Follows(b, c, u, open) && AssertPushed !in u
    requires forall id :: id in open ==> id == b.nextId
    ensures Follows(a, c, t + u, open)
  {
    PlayThen(a.faults, t, u);
    assert NewRuled(a, c, t + u, open) by {
      forall k | |a.nodes| <= k < |c.nodes| && c.nodes[k].id !in open
        ensures Ruled(c.nodes[k], c.edges, t + u)
      {
        if k < |b.nodes| {
          RuledLater(b.nodes[k], c.nodes[k], b.edges, c.edges, t, t + u);
        } else {
          RuledLater(c.nodes[k], c.nodes[k], c.edges, c.edges, u, t + u);
        }
      }
    }
    assert GatesNew(a, c, open) by {
      forall k | |a.edges| <= k < |c.edges| && c.edges[k].condition.Some?
        ensures c.edges[k].from < c.nextId && (c.edges[k].from >= a.nextId || c.edges[k].from in open)
      {
        if k < |b.edges| {
          assert c.edges[k] == b.edges[k];
        }
      }
    }
    if AssertPushed in t {
      var k: nat :| LoneAt(a, b, {}, k);
      var id := b.nodes[k].id;
      forall i | |a.edges| <= i < |c.edges| && c.edges[i].from == id
        ensures c.edges[i].condition.None?
      {
        if i < |b.edges| {
          assert c.edges[i] == b.edges[i];
        }
      }
      assert LoneAt(a, c, open, k);
    }
  }

  lemma AssertFollows(st: State, test: Expr)
    ensures Follows(st, FedBy(st, test, Decide, ["condition"]).0, ExprTrace(test) + [AssertPushed], {})
  {
    var (s1, v) := ToNode(st, test);
    var (s2, n) := Push(s1, Decide, ["condition"]);
    var s3 := Link(s2, v, n);
    ExprFollows(st, test);
    FedByFollows(st, test, Decide, ["condition"]);
    PlayThen(st.faults, ExprTrace(test), [AssertPushed]);
    assert [AssertPushed][1..] == [];
    assert s3.nodes[|s1.nodes|] == Node(n, Decide, ["condition"], s1.branch, s1.group);
    forall i | |st.edges| <= i < |s3.edges| && s3.edges[i].from == n
      ensures s3.edges[i].condition.None?
    {
      if i < |s1.edges| {
        assert s3.edges[i] == s1.edges[i];
      }
    }
    assert LoneAt(st, s3, {}, |s1.nodes|);
    assert AssertPushed in ExprTrace(test) + [AssertPushed];
    forall k | |st.nodes| <= k < |s3.nodes|
      ensures Ruled(s3.nodes[k], s3.edges, ExprTrace(test) + [AssertPushed])
    {
      if s3.nodes[k].id != n {
        RuledLater(s3.nodes[k], s3.nodes[k], s3.edges, s3.edges, ExprTrace(test), ExprTrace(test) + [AssertPushed]);
      }
    }
  }

  // ── Blocks ──────────────────────────────────────────────────────

  lemma AddsThen(a: State, b: State, c: State)
    requires Adds(a, b) && Adds(b, c)
    ensures Adds(a, c)
  {
  }

  lemma SameNodesAdd(a: State, b: State)
    requires b.nodes == a.nodes && a.edges <= b.edges && a.nextId <= b.nextId
    ensures Adds(a, b)
  {
  }

  lemma ThenHollow(a: State, b: State, t: seq<Event>, body: seq<Stmt>, open: set<Id>)
    requires Follows(a, b, t, open)
    ensures Follows(a, b, t + Hollow(body), open)
  {
    PlayThen(a.faults, t, Hollow(body));
    forall k | |a.nodes| <= k < |b.nodes| && b.nodes[k].id !in open
      ensures Ruled(b.nodes[k], b.edges, t + Hollow(body))
    {
      RuledLater(b.nodes[k], b.nodes[k], b.edges, b.edges, t, t + Hollow(body));
    }
  }

  lemma {:induction false} BodyHasEnds(st: State, stmts: seq<Stmt>, chain: Chain, t: Trail)
    requires Body(st, stmts, chain, t).Walked? && (stmts != [] || (t.first.Some? && t.last.Some?))
    ensures Body(st, stmts, chain, t).trail.first.Some? && Body(st, stmts, chain, t).trail.last.Some?
    decreases stmts
  {
    if stmts != [] {
      var r := StmtStep(st, stmts[0]);
      BodyHasEnds(ChainTo(r.st, chain, t, r.first), stmts[1..], chain, Advance(t, r.first, r.last, IsTerminal(stmts[0])));
    }
  }

  lemma StaysAnEdge(e: Edge, st: State, final: State)
    requires e in st.edges && Extends(st, final)
    ensures e in final.edges
  {
    var i :| 0 <= i < |st.edges| && st.edges[i] == e;
    assert final.edges[i] == e;
  }

  lemma GateAddsEdge(st: State, decide: Id, t: Trail, condition: string)
    requires t.last.Some?
    ensures NewEdge(decide, t.last.value, Some(condition), Data) in Gate(st, decide, t, condition).edges
  {
  }

  lemma JoinAddsEdge(st: State, decide: Id, s: Stmt, t: Trail, e: Trail)
    requires s.If? && s.orelse == []
    ensures forall names :: NewEdge(decide, st.nextId, Some("false"), Data) in Join(st, decide, s, t, e, names).0.edges
  {
  }

  /** The DECIDE of an `if` with a body has an edge for true and one for false. */
  lemma IfGates(st: State, s: Stmt)
    requires s.If? && s.body != [] && IfStep(st, s).Done?
    ensures Gated(IfStep(st, s).st.edges, IfStep(st, s).first)
  {
    var r := IfStep(st, s).st;
    var (s2, decide) := TransformSpec.FedBy(st, s.test, Decide, ["condition"]);
    var t := Body(s2, s.body, Unchained, NoTrail);
    BodyHasEnds(s2, s.body, Unchained, NoTrail);
    var s4 := Gate(t.st, decide, t.trail, "true");
    var yes := NewEdge(decide, t.trail.last.value, Some("true"), Data);
    GateAddsEdge(t.st, decide, t.trail, "true");
    var e := Body(s4, s.orelse, Unchained, NoTrail);
    var s6 := Gate(e.st, decide, e.trail, "false");
    StaysAnEdge(yes, s4, s6);
    StaysAnEdge(yes, s6, r);
    var no: Edge;
    if s.orelse != [] {
      BodyHasEnds(s4, s.orelse, Unchained, NoTrail);
      no := NewEdge(decide, e.trail.last.value, Some("false"), Data);
      GateAddsEdge(e.st, decide, e.trail, "false");
      StaysAnEdge(no, s6, r);
    } else {
      no := NewEdge(decide, s6.nextId, Some("false"), Data);
      JoinAddsEdge(s6, decide, s, t.trail, e.trail);
    }
    assert yes in r.edges && no in r.edges;
  }

  lemma JoinFollows(a: State, b: State, u: seq<Event>, decide: Id, s: Stmt, t: Trail, e: Trail, names: set<string>)
    requires s.If? && Follows(a, b, u, {decide}) && decide < b.nextId
    ensures Follows(a, Join(b, decide, s, t, e, names).0, u, {decide}) && Adds(b, Join(b, decide, s, t, e, names).0)
  {
    hide Follows, Quiet;
    var (s1, merge) := Push(b, Merge, []);
    PushFollows(b, Merge, []);
    FollowsThen(a, b, s1, u, [], {decide}, {});
    assert u + [] == u && {decide} + {} == {decide};
    var s2 := if t.last.Some? && !AllTerminal(s.body) then Link(s1, t.last.value, merge) else s1;
    var s3 := if e.last.Some? && !AllTerminal(s.orelse) then Link(s2, e.last.value, merge) else s2;
    QuietSelf(s1);
    QuietSelf(s2);
    if t.last.Some? {
      LinkQuiet(s1, t.last.value, merge);
    }
    if e.last.Some? {
      LinkQuiet(s2, e.last.value, merge);
    }
    QuietThen(s1, s2, s3);
    ThenQuiet(a, s1, s3, u, {decide});
    if s.orelse == [] {
      CondLinkFollows(a, s3, u, {decide}, decide, merge, "false");
    }
    var s4 := JoinEdges(s1, decide, s, t, e, merge);
    RebindQuiet(s4, names, merge);
    ThenQuiet(a, s4, Join(b, decide, s, t, e, names).0, u, {decide});
    FollowsAdds(b, s1, [], {});
    SameNodesAdd(s1, Join(b, decide, s, t, e, names).0);
    AddsThen(b, s1, Join(b, decide, s, t, e, names).0);
  }

  lemma RebindQuiet(st: State, names: set<string>, id: Id)
    ensures Quiet(st, st.(varMap := Rebind(st.varMap, names, id)))
  {
  }

  lemma {:induction false} IfFollows(st: State, s: Stmt)
    requires s.If?
    ensures StmtAgrees(st, IfStep(st, s), WalkTrace(s))
    decreases s, 0
  {
    hide Follows, Quiet, OpAt, Adds, Play;
    var (s2, decide) := TransformSpec.FedBy(st, s.test, Decide, ["condition"]);
    var T, B, E := ExprTrace(s.test), BodyTrace(s.body), BodyTrace(s.orelse);
    FedByFollows(st, s.test, Decide, ["condition"]);
    BodyFollows(s2, s.body, Unchained, NoTrail);
    var t := Body(s2, s.body, Unchained, NoTrail);
    if t.Halted? {
      StopsLater(st, s2, T, B, {decide});
      StopsEarlier(st.faults, T + B, E);
      StopsEarlier(st.faults, T + B + E, Hollow(s.body));
      return;
    }
    FollowsThen(st, s2, t.st, T, B, {decide}, {});
    assert {decide} + {} == {decide};
    FollowsAdds(s2, t.st, B, {});
    var s4 := Gate(t.st, decide, t.trail, "true");
    StillLess(s2, t.st, decide);
    GateFollows(st, t.st, T + B, decide, t.trail, "true");
    GateAdds(t.st, decide, t.trail, "true");
    BodyFollows(s4, s.orelse, Unchained, NoTrail);
    var e := Body(s4, s.orelse, Unchained, NoTrail);
    if e.Halted? {
      StopsLater(st, s4, T + B, E, {decide});
      StopsEarlier(st.faults, T + B + E, Hollow(s.body));
      return;
    }
    FollowsThen(st, s4, e.st, T + B, E, {decide}, {});
    FollowsAdds(s4, e.st, E, {});
    var s6 := Gate(e.st, decide, e.trail, "false");
    AddsThen(s2, t.st, s4);
    AddsThen(s2, s4, e.st);
    StillLess(s2, e.st, decide);
    GateFollows(st, e.st, T + B + E, decide, e.trail, "false");
    GateAdds(e.st, decide, e.trail, "false");
    AddsThen(s2, e.st, s6);
    StillLess(s2, s6, decide);
    var r := IfStep(st, s).st;
    if AllTerminal(s.body) && AllTerminal(s.orelse) {
      assert r == s6;
    } else {
      var names := (t.st.varMap.Keys - s2.varMap.Keys) + (e.st.varMap.Keys - s4.varMap.Keys);
      JoinFollows(st, s6, T + B + E, decide, s, t.trail, e.trail, names);
      AddsThen(s2, s6, r);
    }
    ThenHollow(st, r, T + B + E, s.body, {decide});
    FollowsAdds(st, s2, T, {decide});
    OpStays(st, s2, r, decide, Decide);
    if s.body != [] {
      IfGates(st, s);
    }
    CloseOp(st, r, T + B + E + Hollow(s.body), decide, Decide);
  }

  lemma StillLess(a: State, b: State, id: Id)
    requires Adds(a, b) && id < a.nextId
    ensures id < b.nextId
  {
  }

  lemma GateAdds(st: State, decide: Id, t: Trail, condition: string)
    ensures Adds(st, Gate(st, decide, t, condition))
  {
  }

  lemma CloseOp(a: State, b: State, t: seq<Event>, id: Id, op: Opcode)
    requires Follows(a, b, t, {id}) && a.nextId <= id && OpAt(a, b, id, op)
    requires op == Decide ==> Gated(b.edges, id) || EmptyBody in t
    requires op == Loop || op == Parallel ==> HasOut(b.edges, id) || EmptyBody in t
    ensures Follows(a, b, t, {})
  {
    Close(a, b, t, id);
  }

  lemma {:induction false} ForFollows(st: State, s: Stmt)
    requires s.For?
    ensures StmtAgrees(st, ForStep(st, s), WalkTrace(s))
    decreases s, 0
  {
    hide Follows, Quiet, OpAt, Adds, Play;
    var T, B := ExprTrace(s.iter), BodyTrace(s.body);
    if !s.target.Name? {
      ExprFollows(st, s.iter);
      FallbackFollows(st, ToNode(st, s.iter).0, T, TargetNotName);
      return;
    }
    var (s2, loop) := TransformSpec.FedBy(st, s.iter, Loop, ["target", "max_iterations"]);
    FedByFollows(st, s.iter, Loop, ["target", "max_iterations"]);
    var s3 := Bind(s2, s.target.id, loop);
    BindQuiet(s2, s.target.id, loop);
    ThenQuiet(st, s2, s3, T, {loop});
    BodyFollows(s3, s.body, ByControl, NoTrail);
    var b := Body(s3, s.body, ByControl, NoTrail);
    if b.Halted? {
      StopsLater(st, s3, T, B, {loop});
      StopsEarlier(st.faults, T + B, Hollow(s.body));
      return;
    }
    FollowsThen(st, s3, b.st, T, B, {loop}, {});
    assert {loop} + {} == {loop};
    FollowsAdds(s3, b.st, B, {});
    var r := ForStep(st, s).st;
    QuietSelf(b.st);
    if b.trail.first.Some? {
      LinkQuiet(b.st, loop, b.trail.first.value);
    }
    StillLess(s3, b.st, loop);
    ThenQuiet(st, b.st, r, T + B, {loop});
    ThenHollow(st, r, T + B, s.body, {loop});
    SameNodesAdd(s2, s3);
    SameNodesAdd(b.st, r);
    AddsThen(s2, s3, b.st);
    AddsThen(s2, b.st, r);
    FollowsAdds(st, s2, T, {loop});
    OpStays(st, s2, r, loop, Loop);
    if s.body != [] {
      BodyHasEnds(s3, s.body, ByControl, NoTrail);
      assert NewEdge(loop, b.trail.first.value, None, Data) in r.edges;
    }
    CloseOp(st, r, T + B + Hollow(s.body), loop, Loop);
  }

  lemma ParallelHasBranch(st: State, stmts: seq<Stmt>, k: nat, par: Id) returns (e: Edge)
    requires stmts != [] && ParallelBody(st, stmts, k, par).Walked?
    ensures e in ParallelBody(st, stmts, k, par).st.edges && e.from == par
  {
    var c := StmtStep(st.(branch := Some(k)), stmts[0]);
    var s3 := Link(c.st.(branch := st.branch), par, c.first);
    e := NewEdge(par, c.first, None, Data);
    assert e in s3.edges;
    StaysAnEdge(e, s3, ParallelBody(s3, stmts[1..], k + 1, par).st);
  }

  lemma {:induction false} WithFollows(st: State, s: Stmt)
    requires s.With?
    ensures StmtAgrees(st, WithStep(st, s), WalkTrace(s))
    decreases s, 0
  {
    hide Follows, Quiet, OpAt, Adds, Play;
    match s.item
    case ParallelItem => ParallelFollows(st, s);
    case GroupItem(title) =>
      var s1 := st.(group := Some(title));
      LabelsQuiet(st, st.branch, Some(title));
      BodyFollows(s1, s.body, ByData, NoTrail);
      var b := Body(s1, s.body, ByData, NoTrail);
      if b.Walked? {
        QuietBefore(st, s1, b.st, BodyTrace(s.body), {});
        var s2 := b.st.(group := st.group);
        LabelsQuiet(b.st, b.st.branch, st.group);
        GenQuiet(s2);
        QuietThen(b.st, s2, GenId(s2).0);
        ThenQuiet(st, b.st, GenId(s2).0, BodyTrace(s.body), {});
      }
    case OtherItem =>
      SelfFollows(st);
      FallbackAlone(st, UnsupportedWith);
  }

  lemma LabelsQuiet(st: State, branch: Option<nat>, group: Option<string>)
    ensures Quiet(st, st.(branch := branch, group := group)) && st.(branch := branch, group := group).faults == st.faults
  {
  }

  lemma {:induction false} ParallelFollows(st: State, s: Stmt)
    requires s.With? && s.item.ParallelItem?
    ensures StmtAgrees(st, WithStep(st, s), WalkTrace(s))
    decreases s, 0, 0
  {
    hide Follows, Quiet, OpAt, Adds, Play;
    var (s1, par) := Push(st, Parallel, []);
    var B := BodyTrace(s.body);
    PushFollows(st, Parallel, []);
    SelfAdds(st);
    OpPushed(st, st, Parallel, []);
    ParallelBodyFollows(s1, s.body, 0, par);
    var b := ParallelBody(s1, s.body, 0, par);
    if b.Halted? {
      assert s1.faults == st.faults;
      StopsEarlier(st.faults, B, Hollow(s.body));
      return;
    }
    FollowsThen(st, s1, b.st, [], B, {par}, {});
    assert [] + B == B && {par} + {} == {par};
    ThenHollow(st, b.st, B, s.body, {par});
    FollowsAdds(s1, b.st, B, {});
    FollowsAdds(st, s1, [], {par});
    OpStays(st, s1, b.st, par, Parallel);
    if s.body != [] {
      var e := ParallelHasBranch(s1, s.body, 0, par);
      assert e in b.st.edges;
    }
    CloseOp(st, b.st, B + Hollow(s.body), par, Parallel);
  }

  lemma SelfAdds(st: State)
    ensures Adds(st, st)
  {
  }

  lemma {:induction false} MatchFollows(st: State, s: Stmt)
    requires s.Match?
    ensures StmtAgrees(st, MatchStep(st, s), WalkTrace(s))
    decreases s, 0
  {
    hide Follows, Quiet, OpAt, Adds, Play;
    var (s1, v) := ToNode(st, s.subject);
    var (s2, switch) := Push(s1, Switch, ["source"]);
    var s3 := Link(s2, v, switch);
    var T, C := ExprTrace(s.subject), CasesTrace(s.cases, false);
    var U := T + [SwitchPushed];
    ExprFollows(st, s.subject);
    FollowsAdds(st, s1, T, {});
    OpPushed(st, s1, Switch, ["source"]);
    assert "condition" != "source";
    PushSwitchFollows(s1, ["source"]);
    FollowsPush(st, s1, s2, T, [SwitchPushed], {switch});
    LinkQuiet(s2, v, switch);
    ThenQuiet(st, s2, s3, U, {switch});
    CasesFollow(s3, s.cases, switch, false);
    var r := Cases(s3, s.cases, switch, false);
    if r.Halted? {
      StopsLater(st, s3, U, C, {switch});
      return;
    }
    FollowsThen(st, s3, r.st, U, C, {switch}, {switch});
    assert {switch} + {switch} == {switch};
    FollowsAdds(s3, r.st, C, {switch});
    FollowsAdds(st, s2, U, {switch});
    SameNodesAdd(s2, s3);
    AddsThen(s2, s3, r.st);
    OpStays(st, s2, r.st, switch, Switch);
    StillMore(st, s1, switch);
    CloseOp(st, r.st, U + C, switch, Switch);
  }

  lemma StillMore(a: State, b: State, id: Id)
    requires Adds(a, b) && b.nextId <= id
    ensures a.nextId <= id
  {
  }

  lemma {:induction false} CasesFollow(st: State, cases: seq<Case>, switch: Id, hasDefault: bool)
    requires switch < st.nextId
    ensures BodyAgrees(st, Cases(st, cases, switch, hasDefault), CasesTrace(cases, hasDefault), {switch})
    decreases cases, 0
  {
    hide Follows, Quiet, Adds, Play;
    if cases == [] {
      SelfFollows(st);
      Open(st, st, [], switch);
      return;
    }
    var c := cases[0];
    if c.pattern.Unsupported? {
      var s1 := AddFault(st, UnsupportedPattern);
      RecordFollows(st, UnsupportedPattern);
      CasesFollow(s1, cases[1..], switch, hasDefault);
      CaseThen(st, s1, Cases(st, cases, switch, hasDefault), [Record(UnsupportedPattern)], CasesTrace(cases[1..], hasDefault), switch);
      return;
    }
    var twice := c.pattern.Capture? && hasDefault;
    var s1 := if twice then AddFault(st, ManyDefaults) else st;
    var R := if twice then [Record(ManyDefaults)] else [];
    var B, C := BodyTrace(c.body), CasesTrace(cases[1..], hasDefault || c.pattern.Capture?);
    SelfFollows(st);
    RecordFollows(st, ManyDefaults);
    assert Follows(st, s1, R, {});
    BodyFollows(s1, c.body, Unchained, NoTrail);
    var b := Body(s1, c.body, Unchained, NoTrail);
    if b.Halted? {
      StopsLater(st, s1, R, B, {});
      StopsEarlier(st.faults, R + B, C);
      return;
    }
    FollowsOn(st, s1, b.st, R, B);
    FollowsAdds(st, b.st, R + B, {});
    StillLess(st, b.st, switch);
    var s3 := EnterCase(b.st, switch, c.pattern, b.trail);
    EnterFollowsOn(st, b.st, R + B, switch, c.pattern, b.trail);
    FollowsAdds(st, s3, R + B, {switch});
    StillLess(st, s3, switch);
    CasesFollow(s3, cases[1..], switch, hasDefault || c.pattern.Capture?);
    CaseOn(st, s3, Cases(st, cases, switch, hasDefault), R + B, C, switch);
  }

  lemma Open(a: State, b: State, t: seq<Event>, id: Id)
    requires Follows(a, b, t, {}) && id < a.nextId
    ensures Follows(a, b, t, {id})
  {
    if AssertPushed in t {
      var k: nat :| LoneAt(a, b, {}, k);
      assert LoneAt(a, b, {id}, k);
    }
  }

  lemma EnterFollowsOn(a: State, b: State, t: seq<Event>, switch: Id, pattern: Pattern, trail: Trail)
    requires Follows(a, b, t, {}) && switch < a.nextId && switch < b.nextId
    ensures Follows(a, EnterCase(b, switch, pattern, trail), t, {switch})
  {
    hide Follows, Quiet;
    Open(a, b, t, switch);
    if trail.lastFirst.Some? {
      if pattern.Literal? {
        CondLinkFollows(a, b, t, {switch}, switch, trail.lastFirst.value, pattern.text);
      } else {
        LinkQuiet(b, switch, trail.lastFirst.value);
        ThenQuiet(a, b, Link(b, switch, trail.lastFirst.value), t, {switch});
      }
    }
  }

  lemma CaseOn(a: State, b: State, r: BodyOutcome, t: seq<Event>, u: seq<Event>, switch: Id)
    requires Follows(a, b, t, {switch}) && switch < a.nextId && switch < b.nextId && BodyAgrees(b, r, u, {switch})
    ensures BodyAgrees(a, r, t + u, {switch})
  {
    hide Follows;
    if r.Halted? {
      StopsLater(a, b, t, u, {switch});
    } else {
      FollowsThen(a, b, r.st, t, u, {switch}, {switch});
      assert {switch} + {switch} == {switch};
    }
  }

  lemma CaseThen(a: State, b: State, r: BodyOutcome, t: seq<Event>, u: seq<Event>, switch: Id)
    requires Follows(a, b, t, {}) && switch < a.nextId && switch < b.nextId && BodyAgrees(b, r, u, {switch})
    ensures BodyAgrees(a, r, t + u, {switch})
  {
    hide Follows;
    Open(a, b, t, switch);
    CaseOn(a, b, r, t, u, switch);
  }

  lemma {:induction false} BodyFollows(st: State, stmts: seq<Stmt>, chain: Chain, t: Trail)
    ensures BodyAgrees(st, Body(st, stmts, chain, t), BodyTrace(stmts), {})
    decreases stmts, 0
  {
    hide Follows, Quiet, Adds, Play;
    if stmts == [] {
      SelfFollows(st);
      return;
    }
    var r := StmtStep(st, stmts[0]);
    var T, B := StmtTrace(stmts[0]), BodyTrace(stmts[1..]);
    StmtFollows(st, stmts[0]);
    if r.Stopped? {
      StopsEarlier(st.faults, T, B);
      return;
    }
    var s2 := ChainTo(r.st, chain, t, r.first);
    ChainQuiet(r.st, chain, t, r.first);
    ThenQuiet(st, r.st, s2, T, {});
    BodyFollows(s2, stmts[1..], chain, Advance(t, r.first, r.last, IsTerminal(stmts[0])));
    var b := Body(st, stmts, chain, t);
    if b.Halted? {
      StopsLater(st, s2, T, B, {});
    } else {
      FollowsOn(st, s2, b.st, T, B);
    }
  }

  lemma {:induction false} ParallelBodyFollows(st: State, stmts: seq<Stmt>, k: nat, par: Id)
    ensures BodyAgrees(st, ParallelBody(st, stmts, k, par), BodyTrace(stmts), {})
    decreases stmts, 0
  {
    hide Follows, Quiet, Adds, Play;
    if stmts == [] {
      SelfFollows(st);
      return;
    }
    var s0 := st.(branch := Some(k));
    LabelsQuiet(st, Some(k), st.group);
    var r := StmtStep(s0, stmts[0]);
    var T, B := StmtTrace(stmts[0]), BodyTrace(stmts[1..]);
    StmtFollows(s0, stmts[0]);
    if r.Stopped? {
      StopsEarlier(st.faults, T, B);
      return;
    }
    var s2 := r.st.(branch := st.branch);
    var s3 := Link(s2, par, r.first);
    QuietBefore(st, s0, r.st, T, {});
    LabelsQuiet(r.st, st.branch, r.st.group);
    LinkQuiet(s2, par, r.first);
    QuietThen(r.st, s2, s3);
    ThenQuiet(st, r.st, s3, T, {});
    ParallelBodyFollows(s3, stmts[1..], k + 1, par);
    var b := ParallelBody(st, stmts, k, par);
    if b.Halted? {
      StopsLater(st, s3, T, B, {});
    } else {
      FollowsOn(st, s3, b.st, T, B);
    }
  }

  // ── Modules ─────────────────────────────────────────────────────

  lemma {:induction false} ParamsFollow(st: State, names: seq<string>)
    ensures Follows(st, Params(st, names), [], {})
    decreases names
  {
    hide Follows, Quiet;
    if names == [] {
      SelfFollows(st);
    } else {
      var (s1, n) := Push(st, Input, ["name"]);
      var s2 := Bind(s1, names[0], n);
      PushFollows(st, Input, ["name"]);
      BindQuiet(s1, names[0], n);
      ThenQuiet(st, s1, s2, [], {});
      ParamsFollow(s2, names[1..]);
      var none: seq<Event> := [];
      FollowsOn(st, s2, Params(st, names), none, none);
      assert none + none == none;
    }
  }

  lemma ModuleFollows(m: seq<TopLevel>)
    requires HasGraph(m)
    ensures match ModuleStep(m)
            case Err(faults) => Play([], ModuleTrace(m)) == Err(faults)
            case Ok(st) => Follows(Initial, st, ModuleTrace(m), {})
  {
    hide Follows, Play;
    FindGraphFinds(m);
    var f := FindGraph(m).value;
    var s1 := Params(Initial, f.args);
    var s2 := Params(s1, f.posonlyargs);
    var none: seq<Event> := [];
    ParamsFollow(Initial, f.args);
    ParamsFollow(s1, f.posonlyargs);
    FollowsOn(Initial, s1, s2, none, none);
    assert none + none == none;
    BodyFollows(s2, f.body, ByControl, NoTrail);
    assert none + BodyTrace(f.body) == BodyTrace(f.body);
    var b := Body(s2, f.body, ByControl, NoTrail);
    if b.Halted? {
      StopsLater(Initial, s2, none, BodyTrace(f.body), {});
    } else {
      FollowsOn(Initial, s2, b.st, none, BodyTrace(f.body));
    }
  }

  /** A program that is nothing but a `graph` without parameters. */
  lemma OnlyGraph(body: seq<Stmt>)
    ensures var m := [FunctionDef("graph", [], [], body)];
      && HasGraph(m) && GraphBody(m) == body
      && ModuleStep(m) == match Body(Initial, body, ByControl, NoTrail)
                          case Halted(faults) => Err(faults)
                          case Walked(st, _) => Ok(st)
  {
    var f := FunctionDef("graph", [], [], body);
    assert [f][..0] == [] && MetaCount([]) == 0 && MetaCount([f]) == 0;
    assert FindGraph([f]) == Some([f][0]);
    assert Params(Params(Initial, []), []) == Initial;
  }

  /** A program is accepted exactly if it has one `graph`, at most one META, and no statement that
      starts after a fault. What was recorded is then what its trace records. */
  lemma AcceptedIff(m: seq<TopLevel>)
    ensures ModuleStep(m).Ok? <==> HasGraph(m) && FaultsLast(ModuleTrace(m))
    ensures ModuleStep(m).Ok? ==> ModuleStep(m).value.faults == Records(ModuleTrace(m))
  {
    if HasGraph(m) {
      ModuleFollows(m);
      PlayFromStart(ModuleTrace(m));
    }
  }

  /** A program that records no fault anywhere is one that is accepted with none. */
  lemma FaultFreeIff(m: seq<TopLevel>)
    ensures FaultFree(m) <==> ModuleStep(m).Ok? && ModuleStep(m).value.faults == []
  {
    AcceptedIff(m);
    RecordsNothing(ModuleTrace(m));
    if FaultFree(m) {
      assert FaultsLast(ModuleTrace(m));
    }
  }

  /** In an accepted program every fault was recorded after the last statement had started: all
      statements of `graph` but the last are free of faults, and so on inside the last one. */
  lemma FaultsComeLast(m: seq<TopLevel>)
    requires ModuleStep(m).Ok?
    ensures HasGraph(m) && FaultsLast(ModuleTrace(m))
    ensures var body := GraphBody(m);
      && (forall i :: 0 <= i < |body| - 1 ==> NoRecord(StmtTrace(body[i])))
      && ModuleStep(m).value.faults == (if body == [] then [] else Records(StmtTrace(body[|body| - 1])))
  {
    AcceptedIff(m);
    var body := GraphBody(m);
    forall i | 0 <= i < |body| - 1
      ensures NoRecord(StmtTrace(body[i]))
    {
      OnlyLastRecords(body, i);
    }
    RecordsOfLast(body);
  }

  /** A fault of the last statement is kept and not returned: `for a, b in ...` as the only statement. */
  lemma LastFaultIsKept()
    ensures var m := [FunctionDef("graph", [], [], [For(Compound([Leaf, Leaf]), Leaf, [Stmt.Pass])])];
      ModuleStep(m).Ok? && ModuleStep(m).value.faults == [TargetNotName]
  {
    var s := For(Compound([Leaf, Leaf]), Leaf, [Stmt.Pass]);
    OnlyGraph([s]);
    assert StmtTrace(s) == [Enter, Record(TargetNotName)];
    assert [s][1..] == [] && BodyTrace([s]) == StmtTrace(s);
    AcceptedIff([FunctionDef("graph", [], [], [s])]);
    assert Records([Enter, Record(TargetNotName)]) == [TargetNotName] by {
      assert [Enter, Record(TargetNotName)][1..] == [Record(TargetNotName)] && [Record(TargetNotName)][1..] == [];
    }
  }

  /** The plan of an accepted program has a SWITCH without a condition exactly if a `match` is walked. */
  lemma SwitchIff(m: seq<TopLevel>)
    requires ModuleStep(m).Ok?
    ensures BareSwitch(ModuleStep(m).value.nodes) <==> WalksMatch(m)
  {
    ModuleFollows(m);
  }

  /** In an accepted program each DECIDE has both branches and each LOOP and PARALLEL has a body, but for
      the DECIDE of an `assert`; and an `assert` leaves a DECIDE without branches. */
  lemma BranchesAreThere(m: seq<TopLevel>)
    requires ModuleStep(m).Ok?
    ensures var st := ModuleStep(m).value;
      && (forall n :: n in st.nodes ==> Ruled(n, st.edges, ModuleTrace(m)))
      && (WalksAssert(m) ==> exists n :: n in st.nodes && n.op == Decide && Ungated(st.edges, 0, n.id))
  {
    ModuleFollows(m);
    var st := ModuleStep(m).value;
    if WalksAssert(m) {
      var k: nat :| LoneAt(Initial, st, {}, k);
      assert st.nodes[k] in st.nodes;
    }
  }
}
