/** Every program compiles to a graph without cycles.

    Node numbers are no topological rank: the node of a call is numbered before its
    arguments. The rank used here is the order of completion. A node that is numbered but
    still waits for its arguments is `open`: edges enter it, none leaves it. */
module TransformOrder {
  import opened Wrappers
  import opened Ast
  import opened Graphs
  import opened Plan
  import opened TransformSpec
  import opened TransformTrace
  import opened TransformFollows

  /** Completed ids with their place; `top` is the next free place. */
  datatype Order = Order(rank: map<Id, nat>, top: nat)

  ghost predicate EdgeForward(e: Edge, o: Order, open: set<Id>) {
    e.from in o.rank && (e.to in open || (e.to in o.rank && o.rank[e.from] < o.rank[e.to]))
  }

  /** `named` says that so far every id is the id of a node. */
  ghost predicate Good(st: State, o: Order, open: set<Id>, named: bool) {
    && (forall id :: id in o.rank ==> id < st.nextId && o.rank[id] < o.top && id !in open)
    && (forall id :: id in open ==> id < st.nextId)
    && (forall x :: x in st.varMap ==> st.varMap[x] in o.rank)
    && (forall e :: e in st.edges ==> EdgeForward(e, o, open))
    && (named ==> o.rank.Keys + open <= Ids(st.nodes))
    && Numbered(st)
  }

  ghost predicate Numbered(st: State) {
    DistinctIds(st.nodes) && forall i :: 0 <= i < |st.nodes| ==> st.nodes[i].id < st.nextId
  }

  /** `o'` completes more ids than `o`, all of them later. */
  ghost predicate Grown(o: Order, o': Order) {
    && o.top <= o'.top
    && (forall id :: id in o.rank ==> id in o'.rank && o'.rank[id] == o.rank[id])
    && (forall id :: id in o'.rank && id !in o.rank ==> o.top <= o'.rank[id])
  }

  /** Completed between `o` and `o'`. */
  ghost predicate Fresh(id: Id, o: Order, o': Order) {
    id in o'.rank && id !in o.rank
  }

  // ── Elementary steps ────────────────────────────────────────────

  lemma OpenNode(st: State, op: Opcode, args: seq<string>, o: Order, open: set<Id>, named: bool)
    requires Complete(op, args) && Good(st, o, open, named)
    ensures Good(Push(st, op, args).0, o, open + {st.nextId}, named) && st.nextId !in o.rank && st.nextId !in open
  {
    var s1 := Push(st, op, args).0;
    assert Ids(s1.nodes) == Ids(st.nodes) + {st.nextId};
  }

  lemma CloseNode(st: State, id: Id, o: Order, open: set<Id>, named: bool) returns (o': Order)
    requires Good(st, o, open + {id}, named) && id !in open
    ensures Good(st, o', open, named) && Grown(o, o') && Fresh(id, o, o')
  {
    o' := Order(o.rank[id := o.top], o.top + 1);
    forall e | e in st.edges
      ensures EdgeForward(e, o', open)
    {
      assert EdgeForward(e, o, open + {id});
    }
  }

  lemma PushNode(st: State, op: Opcode, args: seq<string>, o: Order, open: set<Id>, named: bool) returns (o': Order)
    requires Complete(op, args) && Good(st, o, open, named)
    ensures Good(Push(st, op, args).0, o', open, named) && Grown(o, o') && Fresh(st.nextId, o, o')
  {
    OpenNode(st, op, args, o, open, named);
    o' := CloseNode(Push(st, op, args).0, st.nextId, o, open, named);
  }

  /** An id that no node carries; an edge may enter or leave it all the same. */
  lemma AnonymousId(st: State, o: Order, open: set<Id>) returns (o': Order)
    requires Good(st, o, open, false)
    ensures Good(GenId(st).0, o', open, false) && Grown(o, o') && Fresh(st.nextId, o, o')
  {
    var s1 := GenId(st).0;
    assert forall e :: e in s1.edges ==> EdgeForward(e, o, open) && EdgeForward(e, o, open + {st.nextId});
    o' := CloseNode(s1, st.nextId, o, open, false);
  }

  lemma EdgeGood(st: State, from: Id, to: Id, condition: Option<string>, kind: EdgeKind, o: Order, open: set<Id>,
                 named: bool)
    requires Good(st, o, open, named) && EdgeForward(NewEdge(from, to, condition, kind), o, open)
    ensures Good(AddEdge(st, from, to, condition, kind), o, open, named)
  {
    var s1 := AddEdge(st, from, to, condition, kind);
    assert forall e :: e in s1.edges ==> e in st.edges || e == NewEdge(from, to, condition, kind);
  }

  lemma GrownTrans(a: Order, b: Order, c: Order)
    requires Grown(a, b) && Grown(b, c)
    ensures Grown(a, c)
  {
  }

  // ── Expressions ─────────────────────────────────────────────────

  lemma {:induction false} WireDepsGood(st: State, e: Expr, target: Id, o: Order, open: set<Id>, named: bool)
    requires Good(st, o, open, named) && target in open
    ensures Good(WireDeps(st, e, target), o, open, named)
    decreases e, 1
  {
    match e
    case Name(id) =>
      if id in st.varMap {
        EdgeGood(st, st.varMap[id], target, None, Data, o, open, named);
      }
    case Attribute(value, _) => WireDepsGood(st, value, target, o, open, named);
    case Subscript(value, slice) =>
      WireDepsGood(st, value, target, o, open, named);
      WireDepsGood(WireDeps(st, value, target), slice, target, o, open, named);
    case Call(func, args, keywords) =>
      var s1 := WireDeps(st, func, target);
      WireDepsGood(st, func, target, o, open, named);
      WireAllGood(s1, args, target, o, open, named);
      WireKeywordsGood(WireAll(s1, args, target), keywords, target, o, open, named);
    case Compound(parts) => WireAllGood(st, parts, target, o, open, named);
    case Leaf =>
  }

  lemma {:induction false} WireAllGood(st: State, es: seq<Expr>, target: Id, o: Order, open: set<Id>, named: bool)
    requires Good(st, o, open, named) && target in open
    ensures Good(WireAll(st, es, target), o, open, named)
    decreases es, 0
  {
    if es != [] {
      WireDepsGood(st, es[0], target, o, open, named);
      WireAllGood(WireDeps(st, es[0], target), es[1..], target, o, open, named);
    }
  }

  lemma {:induction false} WireKeywordsGood(st: State, ks: seq<Keyword>, target: Id, o: Order, open: set<Id>, named: bool)
    requires Good(st, o, open, named) && target in open
    ensures Good(WireKeywords(st, ks, target), o, open, named)
    decreases ks, 0
  {
    if ks != [] {
      WireDepsGood(st, ks[0].value, target, o, open, named);
      WireKeywordsGood(WireDeps(st, ks[0].value, target), ks[1..], target, o, open, named);
    }
  }

  lemma {:induction false} ToNodeGood(st: State, e: Expr, o: Order, open: set<Id>, named: bool) returns (o': Order)
    requires Good(st, o, open, named)
    requires named ==> ToNode(st, e).0.faults == []
    ensures Good(ToNode(st, e).0, o', open, named) && Grown(o, o') && Fresh(ToNode(st, e).1, o, o')
    decreases e, 1
  {
    match e {
      case Call(func, args, keywords) => {
        match Callee(func) {
          case None =>
            o' := AnonymousId(AddFault(st, DynamicCall), o, open);
          case Some(name) =>
            if name == "call" || name == "act" {
              o' := FedCall(st, Opcode.Call, ["type", "target"] + KeywordNames(keywords), e, true, o, open, named);
            } else if name == "sleep" {
              o' := FedCall(st, Wait, ["duration_secs"], e, false, o, open, named);
            } else if IsBuiltin(name) {
              var (s1, ids) := ToNodes(st, args);
              var o1 := ToNodesGood(st, args, o, open, named);
              var s2 := Push(s1, Calc, ["expr"]).0;
              OpenNode(s1, Calc, ["expr"], o1, open, named);
              LinkAllGood(s2, ids, s1.nextId, o1, open + {s1.nextId}, named);
              o' := CloseNode(LinkAll(s2, ids, s1.nextId), s1.nextId, o1, open, named);
            } else {
              o' := FedCall(st, Calc, ["expr"], e, true, o, open, named);
            }
        }
      }
      case _ => {
        OpenNode(st, Calc, ["expr"], o, open, named);
        var s1 := Push(st, Calc, ["expr"]).0;
        WireDepsGood(s1, e, st.nextId, o, open + {st.nextId}, named);
        o' := CloseNode(WireDeps(s1, e, st.nextId), st.nextId, o, open, named);
      }
    }
  }

  function FedState(st: State, op: Opcode, names: seq<string>, e: Expr, withKeywords: bool): State
    requires e.Call? && Complete(op, names)
  {
    var fed := Feed(Push(st, op, names).0, e.args, st.nextId);
    if withKeywords then FeedKeywords(fed, e.keywords, st.nextId) else fed
  }

  /** A call that is numbered first stays open until its arguments are complete. */
  lemma {:induction false} FedCall(st: State, op: Opcode, names: seq<string>, e: Expr, withKeywords: bool,
                                   o: Order, open: set<Id>, named: bool) returns (o': Order)
    requires e.Call? && Complete(op, names) && Good(st, o, open, named)
    requires named ==> FedState(st, op, names, e, withKeywords).faults == []
    ensures Good(FedState(st, op, names, e, withKeywords), o', open, named)
    ensures Grown(o, o') && Fresh(st.nextId, o, o')
    decreases e, 0
  {
    var n := st.nextId;
    OpenNode(st, op, names, o, open, named);
    var s1 := Push(st, op, names).0;
    var o1 := FeedGood(s1, e.args, n, o, open + {n}, named);
    var o2 := o1;
    if withKeywords {
      o2 := FeedKeywordsGood(Feed(s1, e.args, n), e.keywords, n, o1, open + {n}, named);
    }
    o' := CloseNode(FedState(st, op, names, e, withKeywords), n, o2, open, named);
    GrownTrans(o, o1, o2);
    GrownTrans(o, o2, o');
  }

  lemma {:induction false} FeedGood(st: State, es: seq<Expr>, target: Id, o: Order, open: set<Id>, named: bool)
    returns (o': Order)
    requires Good(st, o, open, named) && target in open
    requires named ==> Feed(st, es, target).faults == []
    ensures Good(Feed(st, es, target), o', open, named) && Grown(o, o')
    decreases es, 0
  {
    o' := o;
    if es != [] {
      var (s1, a) := ToNode(st, es[0]);
      var o1 := ToNodeGood(st, es[0], o, open, named);
      EdgeGood(s1, a, target, None, Data, o1, open, named);
      o' := FeedGood(Link(s1, a, target), es[1..], target, o1, open, named);
      GrownTrans(o, o1, o');
    }
  }

  lemma {:induction false} FeedKeywordsGood(st: State, ks: seq<Keyword>, target: Id, o: Order, open: set<Id>,
                                            named: bool) returns (o': Order)
    requires Good(st, o, open, named) && target in open
    requires named ==> FeedKeywords(st, ks, target).faults == []
    ensures Good(FeedKeywords(st, ks, target), o', open, named) && Grown(o, o')
    decreases ks, 0
  {
    o' := o;
    if ks != [] {
      var (s1, a) := ToNode(st, ks[0].value);
      var o1 := ToNodeGood(st, ks[0].value, o, open, named);
      EdgeGood(s1, a, target, None, Data, o1, open, named);
      o' := FeedKeywordsGood(Link(s1, a, target), ks[1..], target, o1, open, named);
      GrownTrans(o, o1, o');
    }
  }

  lemma {:induction false} ToNodesGood(st: State, es: seq<Expr>, o: Order, open: set<Id>, named: bool)
    returns (o': Order)
    requires Good(st, o, open, named)
    requires named ==> ToNodes(st, es).0.faults == []
    ensures Good(ToNodes(st, es).0, o', open, named) && Grown(o, o')
    ensures forall id :: id in ToNodes(st, es).1 ==> id in o'.rank
    decreases es, 0
  {
    o' := o;
    if es != [] {
      var o1 := ToNodeGood(st, es[0], o, open, named);
      o' := ToNodesGood(ToNode(st, es[0]).0, es[1..], o1, open, named);
      GrownTrans(o, o1, o');
    }
  }

  lemma {:induction false} LinkAllGood(st: State, froms: seq<Id>, to: Id, o: Order, open: set<Id>, named: bool)
    requires Good(st, o, open, named) && to in open && forall id :: id in froms ==> id in o.rank
    ensures Good(LinkAll(st, froms, to), o, open, named)
    decreases froms
  {
    if froms != [] {
      EdgeGood(st, froms[0], to, None, Data, o, open, named);
      LinkAllGood(Link(st, froms[0], to), froms[1..], to, o, open, named);
    }
  }

  // ── Statements ──────────────────────────────────────────────────

  ghost predicate NodeGood(id: Option<Id>, o: Order) {
    id.Some? ==> id.value in o.rank
  }

  ghost predicate TrailGood(t: Trail, o: Order) {
    NodeGood(t.first, o) && NodeGood(t.last, o) && NodeGood(t.lastFirst, o)
  }

  /** Each end of the chain is where it was or was completed since. */
  ghost predicate TrailFresh(t: Trail, t': Trail, o: Order, o': Order) {
    && (t'.first == t.first || (t'.first.Some? && Fresh(t'.first.value, o, o')))
    && (t'.last == t.last || (t'.last.Some? && Fresh(t'.last.value, o, o')))
    && (t'.lastFirst == t.lastFirst || (t'.lastFirst.Some? && Fresh(t'.lastFirst.value, o, o')))
  }

  ghost predicate OutcomeGood(r: Outcome, o: Order, o': Order, named: bool) {
    r.Done? && Good(r.st, o', {}, named) && Grown(o, o') && Fresh(r.first, o, o') && Fresh(r.last, o, o')
  }

  ghost predicate BodyGood(r: BodyOutcome, t: Trail, o: Order, o': Order, named: bool) {
    r.Walked? && Good(r.st, o', {}, named) && Grown(o, o') && TrailGood(r.trail, o') && TrailFresh(t, r.trail, o, o')
  }

  lemma FallbackGood(st: State, f: Fault, o: Order) returns (o': Order)
    requires Good(st, o, {}, false)
    ensures OutcomeGood(Fallback(st, f), o, o', false)
  {
    var s0 := AddFault(st, f);
    var o1 := AnonymousId(s0, o, {});
    o' := AnonymousId(GenId(s0).0, o1, {});
    GrownTrans(o, o1, o');
  }

  lemma ChainGood(st: State, chain: Chain, t: Trail, first: Id, o: Order, o': Order, named: bool)
    requires Good(st, o', {}, named) && Grown(o, o') && TrailGood(t, o) && Fresh(first, o, o')
    requires forall id :: id in o.rank ==> o.rank[id] < o.top
    ensures Good(ChainTo(st, chain, t, first), o', {}, named)
  {
    if t.last.Some? {
      EdgeGood(st, t.last.value, first, None, Data, o', {}, named);
      EdgeGood(st, t.last.value, first, None, Control, o', {}, named);
    }
  }

  lemma GateGood(st: State, decide: Id, t: Trail, condition: string, o: Order, o': Order, named: bool)
    requires Good(st, o', {}, named) && Grown(o, o') && decide in o.rank && o.rank[decide] < o.top
    requires TrailGood(t, o') && TrailFresh(NoTrail, t, o, o')
    ensures Good(Gate(st, decide, t, condition), o', {}, named)
  {
    var s1 := st;
    if t.last.Some? {
      EdgeGood(st, decide, t.last.value, Some(condition), Data, o', {}, named);
      s1 := CondLink(st, decide, t.last.value, condition);
    }
    if t.first.Some? {
      EdgeGood(s1, decide, t.first.value, Some(condition), Data, o', {}, named);
    }
  }

  lemma MarkOutputGood(st: State, id: Id, o: Order, named: bool)
    requires Good(st, o, {}, named)
    ensures Good(st.(nodes := MarkOutput(st.nodes, id)), o, {}, named)
  {
    var marked := MarkOutput(st.nodes, id);
    forall k | k in Ids(st.nodes)
      ensures k in Ids(marked)
    {
      var i :| 0 <= i < |st.nodes| && st.nodes[i].id == k;
      assert marked[i].id == k;
    }
  }

  lemma {:induction false} StmtGood(st: State, s: Stmt, o: Order, named: bool) returns (o': Order)
    requires Good(st, o, {}, named) && StmtStep(st, s).Done?
    requires named ==> Nameable(s) && StmtStep(st, s).st.faults == []
    ensures OutcomeGood(StmtStep(st, s), o, o', named)
    decreases s, 1
  {
    match s {
      case Assign(targets, value) => o' := AssignGood(st, targets, value, o, named);
      case AnnAssign(target, annotated) => o' := AnnAssignGood(st, target, annotated, o, named);
      case AugAssign(target, value) => o' := AugAssignGood(st, target, value, o, named);
      case ExprStmt(value) => o' := ToNodeGood(st, value, o, {}, named);
      case Return(returned) => o' := ReturnGood(st, returned, o, named);
      case If(_, _, _) => o' := IfGood(st, s, o, named);
      case For(_, _, _) => o' := ForGood(st, s, o, named);
      case With(item, body) => o' := WithGood(st, s, o, named);
      case Match(_, _) => o' := MatchGood(st, s, o, named);
      case Pass => o' := AnonymousId(st, o, {});
      case Break => o' := PushNode(st, Act, ["type"], o, {}, named);
      case Continue => o' := PushNode(st, Act, ["type"], o, {}, named);
      case Raise => o' := PushNode(st, Error, ["message"], o, {}, named);
      case Assert(test) =>
        var o1;
        o1, o' := FedNode(st, test, Decide, ["condition"], o, named);
      case OtherStmt => o' := AnonymousId(AddFault(st, UnsupportedStatement), o, {});
    }
  }

  lemma FedNode(st: State, e: Expr, op: Opcode, args: seq<string>, o: Order, named: bool) returns (o1: Order, o2: Order)
    requires Complete(op, args) && Good(st, o, {}, named)
    requires named ==> FedBy(st, e, op, args).0.faults == []
    ensures Good(FedBy(st, e, op, args).0, o2, {}, named)
    ensures Grown(o, o1) && Fresh(ToNode(st, e).1, o, o1) && Grown(o1, o2) && Fresh(FedBy(st, e, op, args).1, o1, o2)
    ensures Grown(o, o2) && Fresh(FedBy(st, e, op, args).1, o, o2)
  {
    var (s1, v) := ToNode(st, e);
    o1 := ToNodeGood(st, e, o, {}, named);
    o2 := PushNode(s1, op, args, o1, {}, named);
    GrownTrans(o, o1, o2);
    EdgeGood(Push(s1, op, args).0, v, s1.nextId, None, Data, o2, {}, named);
  }

  lemma AssignGood(st: State, targets: seq<Expr>, value: Expr, o: Order, named: bool) returns (o': Order)
    requires Good(st, o, {}, named)
    requires named ==> AssignStep(st, targets, value).st.faults == []
    ensures OutcomeGood(AssignStep(st, targets, value), o, o', named)
  {
    if |targets| != 1 {
      o' := FallbackGood(st, ManyTargets, o);
    } else if !targets[0].Name? {
      o' := FallbackGood(st, TargetNotName, o);
    } else {
      o' := OneTargetGood(st, targets[0].id, value, o, named);
    }
  }

  lemma OneTargetGood(st: State, name: string, value: Expr, o: Order, named: bool) returns (o': Order)
    requires Good(st, o, {}, named)
    requires named ==> ToNode(st, value).0.faults == []
    ensures var (s1, n) := ToNode(st, value);
            Good(Bind(s1.(nodes := MarkOutput(s1.nodes, n)), name, n), o', {}, named) && Fresh(n, o, o')
    ensures Grown(o, o')
  {
    o' := ToNodeGood(st, value, o, {}, named);
    MarkOutputGood(ToNode(st, value).0, ToNode(st, value).1, o', named);
  }

  lemma AnnAssignGood(st: State, target: Expr, annotated: Option<Expr>, o: Order, named: bool) returns (o': Order)
    requires Good(st, o, {}, named)
    requires named ==> AnnAssignStep(st, target, annotated).st.faults == []
    ensures OutcomeGood(AnnAssignStep(st, target, annotated), o, o', named)
  {
    if !target.Name? {
      o' := FallbackGood(st, TargetNotName, o);
    } else if annotated.Some? {
      o' := ToNodeGood(st, annotated.value, o, {}, named);
    } else {
      o' := PushNode(st, Input, ["name"], o, {}, named);
    }
  }

  lemma AugAssignGood(st: State, target: Expr, value: Expr, o: Order, named: bool) returns (o': Order)
    requires Good(st, o, {}, named)
    requires named ==> AugAssignStep(st, target, value).st.faults == []
    ensures OutcomeGood(AugAssignStep(st, target, value), o, o', named)
  {
    if !target.Name? {
      o' := FallbackGood(st, TargetNotName, o);
    } else {
      var o1 := ResolveVarGood(st, target.id, o, named);
      o' := UpdateGood(ResolveVar(st, target.id).0, target.id, ResolveVar(st, target.id).1, value, o1, named);
      GrownTrans(o, o1, o');
    }
  }

  lemma UpdateGood(st: State, name: string, prior: Id, value: Expr, o: Order, named: bool) returns (o': Order)
    requires Good(st, o, {}, named) && prior in o.rank
    requires named ==> ToNode(st, value).0.faults == []
    ensures var (s1, rhs) := ToNode(st, value);
            var (s2, n) := CombineTwo(s1, prior, rhs);
            Good(Bind(s2, name, n), o', {}, named) && Fresh(n, o, o')
    ensures Grown(o, o')
  {
    var (s1, rhs) := ToNode(st, value);
    var o1 := ToNodeGood(st, value, o, {}, named);
    o' := FedByTwo(s1, prior, rhs, o1, named);
    GrownTrans(o, o1, o');
  }

  lemma ResolveVarGood(st: State, name: string, o: Order, named: bool) returns (o': Order)
    requires Good(st, o, {}, named)
    ensures Good(ResolveVar(st, name).0, o', {}, named) && ResolveVar(st, name).1 in o'.rank
    ensures Grown(o, o')
  {
    o' := o;
    if name !in st.varMap {
      o' := PushNode(st, Input, ["name"], o, {}, named);
    }
  }

  lemma FedByTwo(st: State, left: Id, right: Id, o: Order, named: bool) returns (o': Order)
    requires Good(st, o, {}, named) && left in o.rank && right in o.rank
    ensures Good(CombineTwo(st, left, right).0, o', {}, named)
    ensures Grown(o, o') && Fresh(CombineTwo(st, left, right).1, o, o')
  {
    o' := PushNode(st, Calc, ["expr", "output"], o, {}, named);
    var (s1, n) := Push(st, Calc, ["expr", "output"]);
    EdgeGood(s1, left, n, None, Data, o', {}, named);
    EdgeGood(Link(s1, left, n), right, n, None, Data, o', {}, named);
  }

  lemma ReturnGood(st: State, returned: Option<Expr>, o: Order, named: bool) returns (o': Order)
    requires Good(st, o, {}, named)
    requires named ==> ReturnStep(st, returned).st.faults == []
    ensures OutcomeGood(ReturnStep(st, returned), o, o', named)
  {
    if returned.Some? {
      var o1;
      o1, o' := FedNode(st, returned.value, Act, ["type"], o, named);
    } else {
      o' := PushNode(st, Act, ["type"], o, {}, named);
    }
  }

  lemma {:induction false} BodyStepGood(st: State, stmts: seq<Stmt>, chain: Chain, t: Trail, o: Order, named: bool)
    returns (o': Order)
    requires Good(st, o, {}, named) && TrailGood(t, o) && Body(st, stmts, chain, t).Walked?
    requires named ==> (forall c :: c in stmts ==> Nameable(c)) && Body(st, stmts, chain, t).st.faults == []
    ensures BodyGood(Body(st, stmts, chain, t), t, o, o', named)
    ensures stmts != [] ==> Body(st, stmts, chain, t).trail.first.Some? && Body(st, stmts, chain, t).trail.last.Some?
    decreases stmts, 0
  {
    o' := o;
    if stmts != [] {
      var r := StmtStep(st, stmts[0]);
      var s2 := ChainTo(r.st, chain, t, r.first);
      var t1 := Advance(t, r.first, r.last, IsTerminal(stmts[0]));
      var o1 := StmtGood(st, stmts[0], o, named);
      ChainGood(r.st, chain, t, r.first, o, o1, named);
      o' := BodyStepGood(s2, stmts[1..], chain, t1, o1, named);
      GrownTrans(o, o1, o');
      TrailKept(s2, stmts[1..], chain, t1);
    }
  }

  /** A chain that has begun stays begun. */
  lemma {:induction false} TrailKept(st: State, stmts: seq<Stmt>, chain: Chain, t: Trail)
    requires t.first.Some? && t.last.Some? && Body(st, stmts, chain, t).Walked?
    ensures Body(st, stmts, chain, t).trail.first == t.first && Body(st, stmts, chain, t).trail.last.Some?
    decreases stmts
  {
    if stmts != [] {
      var r := StmtStep(st, stmts[0]);
      TrailKept(ChainTo(r.st, chain, t, r.first), stmts[1..], chain, Advance(t, r.first, r.last, IsTerminal(stmts[0])));
    }
  }

  lemma {:induction false} ParallelGood(st: State, stmts: seq<Stmt>, k: nat, par: Id, o: Order, named: bool)
    returns (o': Order)
    requires Good(st, o, {}, named) && par in o.rank && ParallelBody(st, stmts, k, par).Walked?
    requires named ==> (forall c :: c in stmts ==> Nameable(c)) && ParallelBody(st, stmts, k, par).st.faults == []
    ensures BodyGood(ParallelBody(st, stmts, k, par), NoTrail, o, o', named)
    decreases stmts, 0
  {
    o' := o;
    if stmts != [] {
      var r := StmtStep(st.(branch := Some(k)), stmts[0]);
      var s2 := r.st.(branch := st.branch);
      var o1 := StmtGood(st.(branch := Some(k)), stmts[0], o, named);
      EdgeGood(s2, par, r.first, None, Data, o1, {}, named);
      o' := ParallelGood(Link(s2, par, r.first), stmts[1..], k + 1, par, o1, named);
      GrownTrans(o, o1, o');
    }
  }

  lemma {:induction false} CasesGood(st: State, cases: seq<Case>, switch: Id, hasDefault: bool, o: Order, named: bool)
    returns (o': Order)
    requires Good(st, o, {}, named) && switch in o.rank && Cases(st, cases, switch, hasDefault).Walked?
    requires named ==> (forall k :: k in cases ==> forall c :: c in k.body ==> Nameable(c))
    requires named ==> Cases(st, cases, switch, hasDefault).st.faults == []
    ensures BodyGood(Cases(st, cases, switch, hasDefault), NoTrail, o, o', named)
    decreases cases, 0
  {
    o' := o;
    if cases != [] {
      var c := cases[0];
      if c.pattern.Unsupported? {
        o' := CasesGood(AddFault(st, UnsupportedPattern), cases[1..], switch, hasDefault, o, named);
      } else {
        var s1 := if c.pattern.Capture? && hasDefault then AddFault(st, ManyDefaults) else st;
        var r := Body(s1, c.body, Unchained, NoTrail);
        var o1 := BodyStepGood(s1, c.body, Unchained, NoTrail, o, named);
        if r.trail.lastFirst.Some? {
          var condition := if c.pattern.Literal? then Some(c.pattern.text) else None;
          EdgeGood(r.st, switch, r.trail.lastFirst.value, condition, Data, o1, {}, named);
        }
        var s3 := EnterCase(r.st, switch, c.pattern, r.trail);
        o' := CasesGood(s3, cases[1..], switch, hasDefault || c.pattern.Capture?, o1, named);
        GrownTrans(o, o1, o');
      }
    }
  }

  lemma {:induction false} MatchGood(st: State, s: Stmt, o: Order, named: bool) returns (o': Order)
    requires s.Match? && Good(st, o, {}, named) && MatchStep(st, s).Done?
    requires named ==> Nameable(s) && MatchStep(st, s).st.faults == []
    ensures OutcomeGood(MatchStep(st, s), o, o', named)
    decreases s, 0
  {
    var (s1, switch) := FedBy(st, s.subject, Switch, ["source"]);
    var o1, o2 := FedNode(st, s.subject, Switch, ["source"], o, named);
    o' := CasesGood(s1, s.cases, switch, false, o2, named);
    GrownTrans(o, o2, o');
  }

  lemma {:induction false} WithGood(st: State, s: Stmt, o: Order, named: bool) returns (o': Order)
    requires s.With? && Good(st, o, {}, named) && WithStep(st, s).Done?
    requires named ==> Nameable(s) && WithStep(st, s).st.faults == []
    ensures OutcomeGood(WithStep(st, s), o, o', named)
    decreases s, 0
  {
    match s.item {
      case ParallelItem =>
        var o1 := PushNode(st, Parallel, [], o, {}, named);
        o' := ParallelGood(Push(st, Parallel, []).0, s.body, 0, st.nextId, o1, named);
        GrownTrans(o, o1, o');
      case GroupItem(title) =>
        var s0 := st.(group := Some(title));
        var r := Body(s0, s.body, ByData, NoTrail);
        var o1 := BodyStepGood(s0, s.body, ByData, NoTrail, o, named);
        o' := o1;
        if s.body == [] {
          o' := AnonymousId(r.st.(group := st.group), o1, {});
          GrownTrans(o, o1, o');
        }
      case OtherItem => o' := FallbackGood(st, UnsupportedWith, o);
    }
  }

  lemma {:induction false} ForGood(st: State, s: Stmt, o: Order, named: bool) returns (o': Order)
    requires s.For? && Good(st, o, {}, named) && ForStep(st, s).Done?
    requires named ==> Nameable(s) && ForStep(st, s).st.faults == []
    ensures OutcomeGood(ForStep(st, s), o, o', named)
    decreases s, 0
  {
    if !s.target.Name? {
      var o1 := ToNodeGood(st, s.iter, o, {}, named);
      o' := FallbackGood(ToNode(st, s.iter).0, TargetNotName, o1);
      GrownTrans(o, o1, o');
    } else {
      var (s2, loop) := FedBy(st, s.iter, Loop, ["target", "max_iterations"]);
      var o1, o2 := FedNode(st, s.iter, Loop, ["target", "max_iterations"], o, named);
      var s3 := Bind(s2, s.target.id, loop);
      var r := Body(s3, s.body, ByControl, NoTrail);
      o' := BodyStepGood(s3, s.body, ByControl, NoTrail, o2, named);
      GrownTrans(o, o2, o');
      if r.trail.first.Some? {
        EdgeGood(r.st, loop, r.trail.first.value, None, Data, o', {}, named);
      }
    }
  }

  lemma {:induction false} IfGood(st: State, s: Stmt, o: Order, named: bool) returns (o': Order)
    requires s.If? && Good(st, o, {}, named) && IfStep(st, s).Done?
    requires named ==> Nameable(s) && IfStep(st, s).st.faults == []
    ensures OutcomeGood(IfStep(st, s), o, o', named)
    decreases s, 0
  {
    var (s2, decide) := FedBy(st, s.test, Decide, ["condition"]);
    var o1, o2 := FedNode(st, s.test, Decide, ["condition"], o, named);
    var r3 := Body(s2, s.body, Unchained, NoTrail);
    var s4 := Gate(r3.st, decide, r3.trail, "true");
    var r5 := Body(s4, s.orelse, Unchained, NoTrail);
    var s6 := Gate(r5.st, decide, r5.trail, "false");
    var o3 := BodyStepGood(s2, s.body, Unchained, NoTrail, o2, named);
    GateGood(r3.st, decide, r3.trail, "true", o2, o3, named);
    var o5 := BodyStepGood(s4, s.orelse, Unchained, NoTrail, o3, named);
    GateGood(r5.st, decide, r5.trail, "false", o3, o5, named);
    GrownTrans(o, o2, o3);
    GrownTrans(o, o3, o5);
    o' := o5;
    if !(AllTerminal(s.body) && AllTerminal(s.orelse)) {
      var names := (r3.st.varMap.Keys - s2.varMap.Keys) + (r5.st.varMap.Keys - s4.varMap.Keys);
      o' := JoinGood(s6, decide, s, r3.trail, r5.trail, names, o5, named);
      GrownTrans(o, o5, o');
    }
  }

  lemma JoinGood(st: State, decide: Id, s: Stmt, t: Trail, e: Trail, names: set<string>, o: Order, named: bool)
    returns (o': Order)
    requires s.If? && Good(st, o, {}, named) && decide in o.rank && TrailGood(t, o) && TrailGood(e, o)
    ensures Good(Join(st, decide, s, t, e, names).0, o', {}, named)
    ensures Grown(o, o') && Fresh(st.nextId, o, o')
  {
    o' := PushNode(st, Merge, [], o, {}, named);
    var (s1, merge) := Push(st, Merge, []);
    JoinEdgesGood(s1, decide, s, t, e, merge, o, o', named);
    RebindGood(JoinEdges(s1, decide, s, t, e, merge), names, merge, o', named);
  }

  lemma JoinEdgesGood(st: State, decide: Id, s: Stmt, t: Trail, e: Trail, merge: Id, o: Order, o': Order, named: bool)
    requires s.If? && Good(st, o', {}, named) && Grown(o, o') && Fresh(merge, o, o')
    requires forall id :: id in o.rank ==> o.rank[id] < o.top
    requires decide in o.rank && TrailGood(t, o) && TrailGood(e, o)
    ensures Good(JoinEdges(st, decide, s, t, e, merge), o', {}, named)
  {
    var s2 := if t.last.Some? && !AllTerminal(s.body) then Link(st, t.last.value, merge) else st;
    if t.last.Some? {
      EdgeGood(st, t.last.value, merge, None, Data, o', {}, named);
    }
    var s3 := if e.last.Some? && !AllTerminal(s.orelse) then Link(s2, e.last.value, merge) else s2;
    if e.last.Some? {
      EdgeGood(s2, e.last.value, merge, None, Data, o', {}, named);
    }
    EdgeGood(s3, decide, merge, Some("false"), Data, o', {}, named);
  }

  lemma RebindGood(st: State, names: set<string>, id: Id, o: Order, named: bool)
    requires Good(st, o, {}, named) && id in o.rank
    ensures Good(st.(varMap := Rebind(st.varMap, names, id)), o, {}, named)
  {
  }

  // ── The compiled graph ──────────────────────────────────────────

  lemma {:induction false} ParamsGood(st: State, names: seq<string>, o: Order) returns (o': Order)
    requires Good(st, o, {}, true)
    ensures Good(Params(st, names), o', {}, true)
    decreases names
  {
    o' := o;
    if names != [] {
      var o1 := PushNode(st, Input, ["name"], o, {}, true);
      o' := ParamsGood(Bind(Push(st, Input, ["name"]).0, names[0], st.nextId), names[1..], o1);
    }
  }

  /** The statements of `graph` are all nameable, where there is a `graph`. */
  ghost predicate NameableModule(m: seq<TopLevel>) {
    var g := FindGraph(m);
    g.Some? && g.value.FunctionDef? ==> forall c :: c in g.value.body ==> Nameable(c)
  }

  /** Whatever the program, every edge of its graph goes forward in completion order. */
  lemma CompletionOrder(m: seq<TopLevel>, named: bool) returns (o: Order)
    requires ModuleStep(m).Ok?
    requires named ==> NameableModule(m) && ModuleStep(m).value.faults == []
    ensures Good(ModuleStep(m).value, o, {}, named)
  {
    FindGraphFinds(m);
    var f := FindGraph(m).value;
    var o1 := ParamsGood(Initial, f.args, Order(map[], 0));
    var s2 := Params(Params(Initial, f.args), f.posonlyargs);
    var o2 := ParamsGood(Params(Initial, f.args), f.posonlyargs, o1);
    o := BodyStepGood(s2, f.body, ByControl, NoTrail, o2, named);
  }

  /** Every program that the transform accepts gives distinct node ids and no cycle. */
  lemma CompilesToDag(m: seq<TopLevel>)
    requires ModuleStep(m).Ok?
    ensures DistinctIds(ModuleStep(m).value.nodes)
    ensures Acyclic(Arcs(ModuleStep(m).value.edges))
  {
    var st := ModuleStep(m).value;
    var o := CompletionOrder(m, false);
    forall u, v | (u, v) in Arcs(st.edges)
      ensures u in o.rank && v in o.rank && o.rank[u] < o.rank[v]
    {
      var e :| e in st.edges && e.from == u && e.to == v;
      assert EdgeForward(e, o, {});
    }
    IncreasingIsAcyclic(Arcs(st.edges), o.rank);
  }

  /** Without `pass`, empty GROUPs and faults no edge dangles, so the sort succeeds. */
  lemma CompilesToSortable(m: seq<TopLevel>)
    requires FaultFree(m) && NameableModule(m)
    ensures ModuleStep(m).Ok?
    ensures var st := ModuleStep(m).value; WellReferenced(st.nodes, st.edges) && Sortable(st.nodes, st.edges)
  {
    FaultFreeIff(m);
    var st := ModuleStep(m).value;
    var o := CompletionOrder(m, true);
    forall e | e in st.edges
      ensures e.from in Ids(st.nodes) && e.to in Ids(st.nodes)
    {
      assert EdgeForward(e, o, {});
    }
    CompilesToDag(m);
    SortableWithoutDangling(st.nodes, st.edges);
  }

  /** Node numbers are no such order: the node of a call is numbered before its argument, and fed by it. */
  lemma NumbersAreNoOrder()
    ensures var m := [FunctionDef("graph", [], [], [ExprStmt(Expr.Call(Name("call"), [Leaf], []))])];
      ModuleStep(m).Ok? && NewEdge(1, 0, None, Data) in ModuleStep(m).value.edges
  {
    hide IsBuiltin, ModuleStep;
    var e := Expr.Call(Name("call"), [Leaf], []);
    OnlyGraph([ExprStmt(e)]);
    var s1 := Push(Initial, Opcode.Call, ["type", "target"] + KeywordNames([])).0;
    var s2 := Push(s1, Calc, ["expr"]).0;
    assert ToNode(s1, Leaf) == (s2, 1);
    assert [Leaf][1..] == [] && Feed(s1, [Leaf], 0) == Link(s2, 1, 0);
    assert FeedKeywords(Link(s2, 1, 0), [], 0) == Link(s2, 1, 0);
    assert ToNode(Initial, e) == (Link(s2, 1, 0), 0);
    assert StmtStep(Initial, ExprStmt(e)) == Done(Link(s2, 1, 0), 0, 0);
    assert [ExprStmt(e)][1..] == [];
    assert Body(Initial, [ExprStmt(e)], ByControl, NoTrail) == Body(Link(s2, 1, 0), [], ByControl, Advance(NoTrail, 0, 0, false));
  }
}
