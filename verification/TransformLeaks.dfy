/** When a DECIDE gets an edge without a condition. */
module TransformLeaks {
  import opened Wrappers
  import opened Ast
  import opened Plan
  import opened TransformSpec
  import opened TransformTrace

  // ── What the syntax says ────────────────────────────────────────

  /** Control leaves the statement at a DECIDE: at an `if` that always returns, at an `assert`, or at
      the end of a GROUP that ends so. */
  predicate EndsAtDecide(s: Stmt) {
    match s
    case If(_, body, orelse) => AllTerminal(body) && AllTerminal(orelse)
    case Assert(_) => true
    case With(item, body) => item.GroupItem? && EndAtDecide(body)
    case _ => false
  }

  predicate EndAtDecide(body: seq<Stmt>) {
    body != [] && EndsAtDecide(body[|body| - 1])
  }

  /** The statement before another one in a body: whether it ends at a DECIDE, and always returns. */
  datatype Before = Start | After(atDecide: bool, terminal: bool)

  predicate ChainLeaks(chain: Chain, before: Before) {
    before.After? && before.atDecide && (chain == ByData || (chain == ByControl && !before.terminal))
  }

  /** Somewhere in the statement an edge without a condition leaves a DECIDE: to what follows it in a
      chain, or to the MERGE behind a branch that does not return as a whole. */
  predicate Leaks(s: Stmt)
    decreases s, 1
  {
    match s
    case If(_, body, orelse) =>
      || BodyLeaks(Unchained, Start, body) || BodyLeaks(Unchained, Start, orelse)
      || (EndAtDecide(body) && !AllTerminal(body)) || (EndAtDecide(orelse) && !AllTerminal(orelse))
    case For(target, _, body) => target.Name? && BodyLeaks(ByControl, Start, body)
    case With(item, body) =>
      (match item
       case ParallelItem => BodyLeaks(Unchained, Start, body)
       case GroupItem(_) => BodyLeaks(ByData, Start, body)
       case OtherItem => false)
    case Match(_, cases) => CasesLeak(cases)
    case _ => false
  }

  predicate BodyLeaks(chain: Chain, before: Before, stmts: seq<Stmt>)
    decreases stmts, 0
  {
    stmts != [] &&
    (ChainLeaks(chain, before) || Leaks(stmts[0])
     || BodyLeaks(chain, After(EndsAtDecide(stmts[0]), IsTerminal(stmts[0])), stmts[1..]))
  }

  predicate CasesLeak(cases: seq<Case>)
    decreases cases, 0
  {
    cases != [] &&
    ((!cases[0].pattern.Unsupported? && BodyLeaks(Unchained, Start, cases[0].body)) || CasesLeak(cases[1..]))
  }

  // ── What the walk does ──────────────────────────────────────────

  ghost predicate IsDecide(st: State, id: Id) {
    exists n :: n in st.nodes && n.id == id && n.op == Decide
  }

  ghost predicate IsSwitch(st: State, id: Id) {
    exists n :: n in st.nodes && n.id == id && n.op == Switch
  }

  /** Only a DECIDE or a SWITCH has edges with a condition, and no SWITCH has one itself. */
  ghost predicate Guarded(st: State) {
    && (forall e :: e in st.edges && e.condition.Some? ==> IsDecide(st, e.from) || IsSwitch(st, e.from))
    && (forall n :: n in st.nodes && n.op == Switch ==> "condition" !in n.args)
  }

  /** Ids are in use, no variable is written by a DECIDE, and conditions are where they belong. */
  ghost predicate Sane(st: State) {
    && (forall x :: x in st.varMap ==> st.varMap[x] < st.nextId && !IsDecide(st, st.varMap[x]))
    && (forall n :: n in st.nodes ==> n.id < st.nextId)
    && Guarded(st)
  }

  ghost predicate LeakAt(a: State, b: State, k: nat) {
    |a.edges| <= k < |b.edges| && b.edges[k].condition.None? && IsDecide(b, b.edges[k].from)
  }

  ghost predicate NewLeak(a: State, b: State) {
    exists k: nat :: LeakAt(a, b, k)
  }

  ghost predicate SameDecides(a: State, b: State) {
    && (forall id: Id :: id < a.nextId ==> (IsDecide(b, id) <==> IsDecide(a, id)))
    && (forall id: Id :: IsSwitch(a, id) ==> IsSwitch(b, id))
  }

  /** From `a` to `b` an edge without a condition was added to leave a DECIDE exactly if `leak` says so. */
  ghost predicate Goes(a: State, b: State, leak: bool) {
    && Sane(b) && a.edges <= b.edges && a.nextId <= b.nextId && SameDecides(a, b)
    && (forall k :: |a.edges| <= k < |b.edges| ==> b.edges[k].from < b.nextId)
    && (NewLeak(a, b) <==> leak)
  }

  lemma GoesThen(a: State, b: State, c: State, x: bool, y: bool)
    requires Goes(a, b, x) && Goes(b, c, y)
    ensures Goes(a, c, x || y)
  {
    hide Sane, IsDecide, IsSwitch;
    assert SameDecides(a, c);
    forall k | |a.edges| <= k < |b.edges|
      ensures LeakAt(a, c, k) <==> LeakAt(a, b, k)
    {
      assert c.edges[k] == b.edges[k];
    }
    forall k | |b.edges| <= k < |c.edges|
      ensures LeakAt(a, c, k) <==> LeakAt(b, c, k)
    {
    }
    if NewLeak(a, b) {
      var k: nat :| LeakAt(a, b, k);
      assert LeakAt(a, c, k);
    }
    if NewLeak(b, c) {
      var k: nat :| LeakAt(b, c, k);
      assert LeakAt(a, c, k);
    }
    if NewLeak(a, c) {
      var k: nat :| LeakAt(a, c, k);
      assert k < |b.edges| ==> LeakAt(a, b, k);
    }
    forall k | |a.edges| <= k < |c.edges|
      ensures c.edges[k].from < c.nextId
    {
      if k < |b.edges| {
        assert c.edges[k] == b.edges[k];
      }
    }
  }

  lemma SelfGoes(st: State)
    requires Sane(st)
    ensures Goes(st, st, false)
  {
  }

  /** Faults, labels and unused ids change nothing here. */
  lemma AsideGoes(a: State, b: State)
    requires Sane(a) && b.nodes == a.nodes && b.edges == a.edges && b.varMap == a.varMap && a.nextId <= b.nextId
    ensures Goes(a, b, false)
  {
    GuardStays(a, b);
  }

  /** Conditions stay where they belong when DECIDEs and SWITCHes stay and new conditions leave one. */
  lemma GuardStays(a: State, b: State)
    requires Guarded(a)
    requires forall id :: (IsDecide(a, id) ==> IsDecide(b, id)) && (IsSwitch(a, id) ==> IsSwitch(b, id))
    requires forall e :: e in b.edges && e.condition.Some? ==> e in a.edges || IsDecide(b, e.from) || IsSwitch(b, e.from)
    requires forall n :: n in b.nodes && n.op == Switch && n !in a.nodes ==> "condition" !in n.args
    ensures Guarded(b)
  {
  }

  /** The same ids are DECIDEs and SWITCHes. */
  ghost predicate SameBranches(a: State, b: State) {
    forall id :: (IsDecide(b, id) <==> IsDecide(a, id)) && (IsSwitch(b, id) <==> IsSwitch(a, id))
  }

  lemma SameNodes(a: State, b: State)
    requires b.nodes == a.nodes
    ensures SameBranches(a, b)
  {
  }

  lemma NewIdIsFree(st: State)
    requires Sane(st)
    ensures !IsDecide(st, st.nextId)
  {
  }

  lemma PushGoes(st: State, op: Opcode, args: seq<string>)
    requires Sane(st) && Complete(op, args) && (op == Switch ==> "condition" !in args)
    ensures Goes(st, Push(st, op, args).0, false) && (IsDecide(Push(st, op, args).0, st.nextId) <==> op == Decide)
    ensures op == Switch ==> IsSwitch(Push(st, op, args).0, st.nextId)
  {
    hide Guarded;
    var r := Push(st, op, args).0;
    assert r.nodes[|st.nodes|] in r.nodes;
    forall id: Id
      ensures IsDecide(st, id) ==> IsDecide(r, id)
      ensures IsSwitch(st, id) ==> IsSwitch(r, id)
      ensures id < st.nextId && IsDecide(r, id) ==> IsDecide(st, id)
    {
      if n :| n in st.nodes && n.id == id && n.op == Decide {
        assert n in r.nodes;
      }
      if n :| n in st.nodes && n.id == id && n.op == Switch {
        assert n in r.nodes;
      }
    }
    GuardStays(st, r);
  }

  lemma LinkGoes(st: State, from: Id, to: Id)
    requires Sane(st) && from < st.nextId
    ensures Goes(st, Link(st, from, to), IsDecide(st, from)) && Goes(st, ControlLink(st, from, to), IsDecide(st, from))
  {
    hide Guarded, IsSwitch;
    forall r | r == Link(st, from, to) || r == ControlLink(st, from, to)
      ensures Goes(st, r, IsDecide(st, from))
    {
      SameNodes(st, r);
      GuardStays(st, r);
      if IsDecide(st, from) {
        assert LeakAt(st, r, |st.edges|);
      }
    }
  }

  lemma CondLinkGoes(st: State, from: Id, to: Id, condition: string)
    requires Sane(st) && from < st.nextId && (IsDecide(st, from) || IsSwitch(st, from))
    ensures Goes(st, CondLink(st, from, to, condition), false)
  {
    hide Guarded, IsSwitch;
    var r := CondLink(st, from, to, condition);
    SameNodes(st, r);
    GuardStays(st, r);
  }

  lemma BindGoes(st: State, name: string, id: Id)
    requires Sane(st) && id < st.nextId && !IsDecide(st, id)
    ensures Goes(st, Bind(st, name, id), false)
  {
    hide Guarded, IsSwitch;
    SameNodes(st, Bind(st, name, id));
    GuardStays(st, Bind(st, name, id));
  }

  lemma RebindGoes(st: State, names: set<string>, id: Id)
    requires Sane(st) && id < st.nextId && !IsDecide(st, id)
    ensures Goes(st, st.(varMap := Rebind(st.varMap, names, id)), false)
  {
    hide Guarded, IsSwitch;
    var r := st.(varMap := Rebind(st.varMap, names, id));
    SameNodes(st, r);
    GuardStays(st, r);
  }

  lemma MarkGoes(st: State, id: Id)
    requires Sane(st)
    ensures Goes(st, st.(nodes := MarkOutput(st.nodes, id)), false)
  {
    var r := st.(nodes := MarkOutput(st.nodes, id));
    MarkSame(st, r, id);
    MarkGuarded(st, r, id);
    forall n | n in r.nodes
      ensures n.id < r.nextId
    {
      var i :| 0 <= i < |r.nodes| && r.nodes[i] == n;
      assert st.nodes[i] in st.nodes;
    }
  }

  lemma MarkSame(st: State, r: State, id: Id)
    requires r.nodes == MarkOutput(st.nodes, id)
    ensures SameBranches(st, r)
  {
    forall x
      ensures (IsDecide(r, x) <==> IsDecide(st, x)) && (IsSwitch(r, x) <==> IsSwitch(st, x))
    {
      OpKept(st.nodes, r.nodes, x, Decide);
      OpKept(r.nodes, st.nodes, x, Decide);
      OpKept(st.nodes, r.nodes, x, Switch);
      OpKept(r.nodes, st.nodes, x, Switch);
    }
  }

  lemma OpKept(a: seq<Node>, b: seq<Node>, id: Id, op: Opcode)
    requires |a| == |b| && forall i :: 0 <= i < |a| ==> a[i].id == b[i].id && a[i].op == b[i].op
    ensures (exists n :: n in a && n.id == id && n.op == op) ==> exists n :: n in b && n.id == id && n.op == op
  {
    if n :| n in a && n.id == id && n.op == op {
      var i :| 0 <= i < |a| && a[i] == n;
      assert b[i] in b;
    }
  }

  lemma MarkGuarded(st: State, r: State, id: Id)
    requires Guarded(st) && r == st.(nodes := MarkOutput(st.nodes, id)) && SameBranches(st, r)
    ensures Guarded(r)
  {
    hide IsDecide, IsSwitch;
    forall n | n in r.nodes && n.op == Switch
      ensures "condition" !in n.args
    {
      var i :| 0 <= i < |r.nodes| && r.nodes[i] == n;
      assert st.nodes[i] in st.nodes;
    }
  }

  /** A node that is in use and no DECIDE. */
  ghost predicate Plain(st: State, id: Id) {
    id < st.nextId && !IsDecide(st, id)
  }

  lemma PlainStays(a: State, b: State, leak: bool, id: Id)
    requires Goes(a, b, leak) && id < a.nextId
    ensures id < b.nextId && (IsDecide(b, id) <==> IsDecide(a, id)) && (IsSwitch(a, id) ==> IsSwitch(b, id))
  {
  }

  lemma GoesSane(a: State, b: State, leak: bool)
    requires Goes(a, b, leak)
    ensures Sane(b) && a.nextId <= b.nextId
  {
  }

  // ── Expressions ─────────────────────────────────────────────────

  lemma {:induction false} WireGoes(st: State, e: Expr, target: Id)
    requires Sane(st)
    ensures Goes(st, WireDeps(st, e, target), false)
    decreases e, 1
  {
    hide Goes, Guarded;
    match e
    case Name(id) =>
      SelfGoes(st);
      if id in st.varMap {
        LinkGoes(st, st.varMap[id], target);
      }
    case Attribute(value, _) => WireGoes(st, value, target);
    case Subscript(value, slice) =>
      var s1 := WireDeps(st, value, target);
      WireGoes(st, value, target);
      GoesSane(st, s1, false);
      WireGoes(s1, slice, target);
      GoesThen(st, s1, WireDeps(st, e, target), false, false);
    case Call(func, args, keywords) =>
      var s1 := WireDeps(st, func, target);
      var s2 := WireAll(s1, args, target);
      WireGoes(st, func, target);
      GoesSane(st, s1, false);
      WireAllGoes(s1, args, target);
      GoesSane(s1, s2, false);
      WireKeywordsGoes(s2, keywords, target);
      GoesThen(st, s1, s2, false, false);
      GoesThen(st, s2, WireDeps(st, e, target), false, false);
    case Compound(parts) => WireAllGoes(st, parts, target);
    case Leaf => SelfGoes(st);
  }

  lemma {:induction false} WireAllGoes(st: State, es: seq<Expr>, target: Id)
    requires Sane(st)
    ensures Goes(st, WireAll(st, es, target), false)
    decreases es, 0
  {
    hide Goes, Guarded;
    if es == [] {
      SelfGoes(st);
    } else {
      var s1 := WireDeps(st, es[0], target);
      WireGoes(st, es[0], target);
      GoesSane(st, s1, false);
      WireAllGoes(s1, es[1..], target);
      GoesThen(st, s1, WireAll(st, es, target), false, false);
    }
  }

  lemma {:induction false} WireKeywordsGoes(st: State, ks: seq<Keyword>, target: Id)
    requires Sane(st)
    ensures Goes(st, WireKeywords(st, ks, target), false)
    decreases ks, 0
  {
    hide Goes, Guarded;
    if ks == [] {
      SelfGoes(st);
    } else {
      var s1 := WireDeps(st, ks[0].value, target);
      WireGoes(st, ks[0].value, target);
      GoesSane(st, s1, false);
      WireKeywordsGoes(s1, ks[1..], target);
      GoesThen(st, s1, WireKeywords(st, ks, target), false, false);
    }
  }

  lemma {:induction false} LinkAllGoes(st: State, froms: seq<Id>, to: Id)
    requires Sane(st) && forall i :: 0 <= i < |froms| ==> Plain(st, froms[i])
    ensures Goes(st, LinkAll(st, froms, to), false)
    decreases froms
  {
    hide Goes, Guarded;
    if froms == [] {
      SelfGoes(st);
    } else {
      var s1 := Link(st, froms[0], to);
      LinkGoes(st, froms[0], to);
      GoesSane(st, s1, false);
      forall i | 0 <= i < |froms| - 1
        ensures Plain(s1, froms[1..][i])
      {
        assert Plain(st, froms[i + 1]);
        PlainStays(st, s1, false, froms[i + 1]);
      }
      LinkAllGoes(s1, froms[1..], to);
      GoesThen(st, s1, LinkAll(st, froms, to), false, false);
    }
  }

  /** The node of an expression is no DECIDE, and nothing leaks. */
  lemma {:induction false} ExprGoes(st: State, e: Expr)
    requires Sane(st)
    ensures Goes(st, ToNode(st, e).0, false) && Plain(ToNode(st, e).0, ToNode(st, e).1)
    decreases e, 1
  {
    hide Goes, Guarded, IsBuiltin;
    match e
    case Call(_, _, _) => CallGoes(st, e);
    case _ =>
      var s1 := Push(st, Calc, ["expr"]).0;
      PushGoes(st, Calc, ["expr"]);
      GoesSane(st, s1, false);
      WireGoes(s1, e, st.nextId);
      PlainStays(s1, WireDeps(s1, e, st.nextId), false, st.nextId);
      GoesThen(st, s1, WireDeps(s1, e, st.nextId), false, false);
  }

  lemma {:induction false} CallGoes(st: State, e: Expr)
    requires e.Call? && Sane(st)
    ensures Goes(st, ToNode(st, e).0, false) && Plain(ToNode(st, e).0, ToNode(st, e).1)
    decreases e, 0, 1
  {
    hide Goes, Guarded, IsBuiltin;
    match Callee(e.func)
    case None =>
      NewIdIsFree(st);
      AsideGoes(st, ToNode(st, e).0);
      assert IsDecide(ToNode(st, e).0, st.nextId) <==> IsDecide(st, st.nextId);
    case Some(name) =>
      if name == "call" || name == "act" {
        ArgumentsGo(st, e, Opcode.Call, ["type", "target"] + KeywordNames(e.keywords), true);
      } else if name == "sleep" {
        ArgumentsGo(st, e, Wait, ["duration_secs"], false);
      } else if IsBuiltin(name) {
        var (s1, ids) := ToNodes(st, e.args);
        var (s2, n) := Push(s1, Calc, ["expr"]);
        ToNodesGo(st, e.args);
        GoesSane(st, s1, false);
        PushGoes(s1, Calc, ["expr"]);
        GoesSane(s1, s2, false);
        forall i | 0 <= i < |ids|
          ensures Plain(s2, ids[i])
        {
          PlainStays(s1, s2, false, ids[i]);
        }
        LinkAllGoes(s2, ids, n);
        GoesThen(st, s1, s2, false, false);
        GoesThen(st, s2, LinkAll(s2, ids, n), false, false);
        PlainStays(s2, LinkAll(s2, ids, n), false, n);
      } else {
        ArgumentsGo(st, e, Calc, ["expr"], true);
      }
  }

  lemma {:induction false} ArgumentsGo(st: State, e: Expr, op: Opcode, names: seq<string>, withKeywords: bool)
    requires e.Call? && Sane(st) && Complete(op, names) && op != Decide && op != Switch
    ensures var s2 := Feed(Push(st, op, names).0, e.args, st.nextId);
      var r := if withKeywords then FeedKeywords(s2, e.keywords, st.nextId) else s2;
      Goes(st, r, false) && Plain(r, st.nextId)
    decreases e, 0, 0
  {
    hide Goes, Guarded;
    var n := st.nextId;
    var s1 := Push(st, op, names).0;
    var s2 := Feed(s1, e.args, n);
    PushGoes(st, op, names);
    GoesSane(st, s1, false);
    FeedGoes(s1, e.args, n);
    GoesThen(st, s1, s2, false, false);
    PlainStays(s1, s2, false, n);
    if withKeywords {
      GoesSane(s1, s2, false);
      FeedKeywordsGoes(s2, e.keywords, n);
      GoesThen(st, s2, FeedKeywords(s2, e.keywords, n), false, false);
      PlainStays(s2, FeedKeywords(s2, e.keywords, n), false, n);
    }
  }

  lemma {:induction false} FeedGoes(st: State, es: seq<Expr>, target: Id)
    requires Sane(st)
    ensures Goes(st, Feed(st, es, target), false)
    decreases es, 0
  {
    hide Goes, Guarded;
    if es == [] {
      SelfGoes(st);
    } else {
      var (s1, a) := ToNode(st, es[0]);
      var s2 := Link(s1, a, target);
      ExprGoes(st, es[0]);
      GoesSane(st, s1, false);
      LinkGoes(s1, a, target);
      GoesSane(s1, s2, false);
      FeedGoes(s2, es[1..], target);
      GoesThen(st, s1, s2, false, false);
      GoesThen(st, s2, Feed(st, es, target), false, false);
    }
  }

  lemma {:induction false} FeedKeywordsGoes(st: State, ks: seq<Keyword>, target: Id)
    requires Sane(st)
    ensures Goes(st, FeedKeywords(st, ks, target), false)
    decreases ks, 0
  {
    hide Goes, Guarded;
    if ks == [] {
      SelfGoes(st);
    } else {
      var (s1, a) := ToNode(st, ks[0].value);
      var s2 := Link(s1, a, target);
      ExprGoes(st, ks[0].value);
      GoesSane(st, s1, false);
      LinkGoes(s1, a, target);
      GoesSane(s1, s2, false);
      FeedKeywordsGoes(s2, ks[1..], target);
      GoesThen(st, s1, s2, false, false);
      GoesThen(st, s2, FeedKeywords(st, ks, target), false, false);
    }
  }

  lemma {:induction false} ToNodesGo(st: State, es: seq<Expr>)
    requires Sane(st)
    ensures var (r, ids) := ToNodes(st, es); Goes(st, r, false) && forall i :: 0 <= i < |ids| ==> Plain(r, ids[i])
    decreases es, 0
  {
    hide Goes, Guarded;
    if es == [] {
      SelfGoes(st);
    } else {
      var (s1, a) := ToNode(st, es[0]);
      var (s2, rest) := ToNodes(s1, es[1..]);
      ExprGoes(st, es[0]);
      GoesSane(st, s1, false);
      ToNodesGo(s1, es[1..]);
      GoesThen(st, s1, s2, false, false);
      PlainStays(s1, s2, false, a);
    }
  }

  // ── Statements ──────────────────────────────────────────────────

  ghost predicate StmtGoesTo(st: State, r: Outcome, s: Stmt) {
    r.Done? ==> Goes(st, r.st, Leaks(s)) && r.last < r.st.nextId && (IsDecide(r.st, r.last) <==> EndsAtDecide(s))
  }

  lemma {:induction false} StmtGoes(st: State, s: Stmt)
    requires Sane(st)
    ensures StmtGoesTo(st, StmtStep(st, s), s)
    decreases s, 2
  {
    hide Goes, Guarded;
    if st.faults == [] {
      match s
      case If(_, _, _) => IfGoes(st, s);
      case For(_, _, _) => ForGoes(st, s);
      case With(_, _) => WithGoes(st, s);
      case Match(_, _) => MatchGoes(st, s);
      case ExprStmt(value) => ExprGoes(st, value);
      case Assert(test) => FedByGoes(st, test, Decide, ["condition"]);
      case OtherStmt => SpareGoes(st, AddFault(st, UnsupportedStatement));
      case Pass => SpareGoes(st, st);
      case Break => PushGoes(st, Act, ["type"]);
      case Continue => PushGoes(st, Act, ["type"]);
      case Raise => PushGoes(st, Error, ["message"]);
      case _ => SimpleGoes(st, s);
    }
  }

  /** An id that no node has, perhaps with a fault. */
  lemma SpareGoes(a: State, b: State)
    requires Sane(a) && b.nodes == a.nodes && b.edges == a.edges && b.varMap == a.varMap && a.nextId <= b.nextId
    ensures var (r, n) := GenId(b); Goes(a, r, false) && n < r.nextId && !IsDecide(r, n)
  {
    var (r, n) := GenId(b);
    AsideGoes(a, r);
    assert IsDecide(r, n) <==> IsDecide(a, n);
  }

  lemma FallbackGoes(a: State, st: State, f: Fault)
    requires Goes(a, st, false)
    ensures var r := Fallback(st, f); Goes(a, r.st, false) && r.last < r.st.nextId && !IsDecide(r.st, r.last)
  {
    hide Goes, Guarded;
    GoesSane(a, st, false);
    SpareGoes(st, GenId(AddFault(st, f)).0);
    GoesThen(a, st, Fallback(st, f).st, false, false);
  }

  lemma FedByGoes(st: State, e: Expr, op: Opcode, args: seq<string>)
    requires Sane(st) && Complete(op, args) && (op == Switch ==> "condition" !in args)
    ensures var (r, n) := TransformSpec.FedBy(st, e, op, args);
      Goes(st, r, false) && n < r.nextId && (IsDecide(r, n) <==> op == Decide) && (op == Switch ==> IsSwitch(r, n))
  {
    hide Sane, IsDecide, IsSwitch, Goes;
    var (s1, v) := ToNode(st, e);
    var (s2, n) := Push(s1, op, args);
    ExprGoes(st, e);
    GoesSane(st, s1, false);
    PushGoes(s1, op, args);
    GoesThen(st, s1, s2, false, false);
    PlainStays(s1, s2, false, v);
    GoesSane(s1, s2, false);
    LinkGoes(s2, v, n);
    GoesThen(st, s2, Link(s2, v, n), false, false);
    PlainStays(s2, Link(s2, v, n), false, n);
  }

  lemma SimpleGoes(st: State, s: Stmt)
    requires s.Assign? || s.AnnAssign? || s.AugAssign? || s.Return?
    requires Sane(st) && st.faults == []
    ensures StmtGoesTo(st, StmtStep(st, s), s)
  {
    hide Goes, Guarded;
    SelfGoes(st);
    match s
    case Assign(targets, value) =>
      if |targets| != 1 {
        FallbackGoes(st, st, ManyTargets);
      } else if !targets[0].Name? {
        FallbackGoes(st, st, TargetNotName);
      } else {
        var (s1, n) := ToNode(st, value);
        var s2 := s1.(nodes := MarkOutput(s1.nodes, n));
        ExprGoes(st, value);
        GoesSane(st, s1, false);
        MarkGoes(s1, n);
        PlainStays(s1, s2, false, n);
        GoesThen(st, s1, s2, false, false);
        BoundGoes(st, s2, targets[0].id, n);
      }
    case AnnAssign(target, annotated) =>
      if !target.Name? {
        FallbackGoes(st, st, TargetNotName);
      } else if annotated.Some? {
        ExprGoes(st, annotated.value);
        BoundGoes(st, ToNode(st, annotated.value).0, target.id, ToNode(st, annotated.value).1);
      } else {
        PushGoes(st, Input, ["name"]);
        GoesSane(st, Push(st, Input, ["name"]).0, false);
        BoundGoes(st, Push(st, Input, ["name"]).0, target.id, st.nextId);
      }
    case AugAssign(target, value) =>
      if !target.Name? {
        FallbackGoes(st, st, TargetNotName);
      } else {
        AugGoes(st, target, value);
      }
    case Return(returned) =>
      if returned.Some? {
        FedByGoes(st, returned.value, Act, ["type"]);
      } else {
        PushGoes(st, Act, ["type"]);
      }
  }

  lemma BoundGoes(a: State, b: State, name: string, id: Id)
    requires Goes(a, b, false) && Plain(b, id)
    ensures Goes(a, Bind(b, name, id), false) && Plain(Bind(b, name, id), id)
  {
    hide Goes, Guarded;
    GoesSane(a, b, false);
    BindGoes(b, name, id);
    GoesThen(a, b, Bind(b, name, id), false, false);
    PlainStays(b, Bind(b, name, id), false, id);
  }

  lemma AugGoes(st: State, target: Expr, value: Expr)
    requires target.Name? && Sane(st)
    ensures var r := AugAssignStep(st, target, value); Goes(st, r.st, false) && Plain(r.st, r.last)
  {
    hide Sane, IsDecide, IsSwitch, Goes;
    var (s1, prior) := ResolveVar(st, target.id);
    if target.id in st.varMap {
      SelfGoes(st);
    } else {
      PushGoes(st, Input, ["name"]);
      GoesSane(st, Push(st, Input, ["name"]).0, false);
      BoundGoes(st, Push(st, Input, ["name"]).0, target.id, st.nextId);
    }
    GoesSane(st, s1, false);
    assert Plain(s1, prior);
    var (s2, rhs) := ToNode(s1, value);
    ExprGoes(s1, value);
    GoesThen(st, s1, s2, false, false);
    PlainStays(s1, s2, false, prior);
    GoesSane(s1, s2, false);
    var (s3, n) := Push(s2, Calc, ["expr", "output"]);
    PushGoes(s2, Calc, ["expr", "output"]);
    GoesThen(st, s2, s3, false, false);
    PlainStays(s2, s3, false, prior);
    PlainStays(s2, s3, false, rhs);
    GoesSane(s2, s3, false);
    var s4 := Link(s3, prior, n);
    LinkGoes(s3, prior, n);
    GoesThen(st, s3, s4, false, false);
    PlainStays(s3, s4, false, rhs);
    PlainStays(s3, s4, false, n);
    GoesSane(s3, s4, false);
    var s5 := Link(s4, rhs, n);
    LinkGoes(s4, rhs, n);
    GoesThen(st, s4, s5, false, false);
    PlainStays(s4, s5, false, n);
    BoundGoes(st, s5, target.id, n);
  }

  /** The last node of the chain so far. */
  ghost predicate Stands(st: State, t: Trail, before: Before) {
    && (t.last.Some? <==> before.After?)
    && (t.last.Some? ==> t.last.value < st.nextId && (IsDecide(st, t.last.value) <==> before.atDecide) && t.terminal == before.terminal)
  }

  function EndOf(before: Before, stmts: seq<Stmt>): Before {
    if stmts == [] then before else After(EndsAtDecide(stmts[|stmts| - 1]), IsTerminal(stmts[|stmts| - 1]))
  }

  lemma StandsOn(a: State, b: State, leak: bool, t: Trail, before: Before)
    requires Goes(a, b, leak) && Stands(a, t, before)
    ensures Stands(b, t, before)
  {
  }

  lemma StandsAtStart(st: State)
    ensures Stands(st, NoTrail, Start)
  {
  }

  lemma ChainGoes(st: State, chain: Chain, t: Trail, first: Id, before: Before)
    requires Sane(st) && Stands(st, t, before)
    ensures Goes(st, ChainTo(st, chain, t, first), ChainLeaks(chain, before))
  {
    hide Goes, Guarded;
    SelfGoes(st);
    if t.last.Some? {
      LinkGoes(st, t.last.value, first);
    }
  }

  lemma {:induction false} BodyGoes(st: State, stmts: seq<Stmt>, chain: Chain, t: Trail, before: Before)
    requires Sane(st) && Stands(st, t, before)
    ensures var r := Body(st, stmts, chain, t);
      r.Walked? ==> Goes(st, r.st, BodyLeaks(chain, before, stmts)) && Stands(r.st, r.trail, EndOf(before, stmts))
    decreases stmts, 0
  {
    hide Sane, IsDecide, IsSwitch, Goes, Leaks, EndsAtDecide, IsTerminal;
    if stmts == [] {
      SelfGoes(st);
      return;
    }
    var r := StmtStep(st, stmts[0]);
    StmtGoes(st, stmts[0]);
    if r.Done? {
      GoesSane(st, r.st, Leaks(stmts[0]));
      StandsOn(st, r.st, Leaks(stmts[0]), t, before);
      var s2 := ChainTo(r.st, chain, t, r.first);
      ChainGoes(r.st, chain, t, r.first, before);
      GoesThen(st, r.st, s2, Leaks(stmts[0]), ChainLeaks(chain, before));
      GoesSane(r.st, s2, ChainLeaks(chain, before));
      PlainStays(r.st, s2, ChainLeaks(chain, before), r.last);
      var u, next := Advance(t, r.first, r.last, IsTerminal(stmts[0])), After(EndsAtDecide(stmts[0]), IsTerminal(stmts[0]));
      BodyGoes(s2, stmts[1..], chain, u, next);
      var b := Body(st, stmts, chain, t);
      if b.Walked? {
        GoesThen(st, s2, b.st, Leaks(stmts[0]) || ChainLeaks(chain, before), BodyLeaks(chain, next, stmts[1..]));
      }
    }
  }

  lemma {:induction false} ParallelBodyGoes(st: State, stmts: seq<Stmt>, k: nat, par: Id, before: Before)
    requires Sane(st) && par < st.nextId && !IsDecide(st, par)
    ensures var r := ParallelBody(st, stmts, k, par); r.Walked? ==> Goes(st, r.st, BodyLeaks(Unchained, before, stmts))
    decreases stmts, 0
  {
    hide Sane, IsDecide, IsSwitch, Goes, Leaks, EndsAtDecide, IsTerminal;
    if stmts == [] {
      SelfGoes(st);
      return;
    }
    var s0 := st.(branch := Some(k));
    AsideGoes(st, s0);
    GoesSane(st, s0, false);
    var r := StmtStep(s0, stmts[0]);
    StmtGoes(s0, stmts[0]);
    if r.Done? {
      var l := Leaks(stmts[0]);
      var s2 := r.st.(branch := st.branch);
      var s3 := Link(s2, par, r.first);
      GoesThen(st, s0, r.st, false, l);
      PlainStays(st, r.st, l, par);
      GoesSane(s0, r.st, l);
      AsideGoes(r.st, s2);
      GoesThen(st, r.st, s2, l, false);
      PlainStays(r.st, s2, false, par);
      GoesSane(r.st, s2, false);
      LinkGoes(s2, par, r.first);
      GoesThen(st, s2, s3, l, false);
      PlainStays(s2, s3, false, par);
      GoesSane(s2, s3, false);
      var next := After(EndsAtDecide(stmts[0]), IsTerminal(stmts[0]));
      ParallelBodyGoes(s3, stmts[1..], k + 1, par, next);
      var b := ParallelBody(st, stmts, k, par);
      if b.Walked? {
        GoesThen(st, s3, b.st, l, BodyLeaks(Unchained, next, stmts[1..]));
      }
    }
  }

  lemma GateGoes(st: State, decide: Id, t: Trail, condition: string)
    requires Sane(st) && decide < st.nextId && IsDecide(st, decide)
    ensures Goes(st, Gate(st, decide, t, condition), false)
  {
    hide Goes, Guarded;
    SelfGoes(st);
    var s1 := if t.last.Some? then CondLink(st, decide, t.last.value, condition) else st;
    if t.last.Some? {
      CondLinkGoes(st, decide, t.last.value, condition);
    }
    GoesSane(st, s1, false);
    PlainStays(st, s1, false, decide);
    if t.first.Some? && t.first != t.last {
      CondLinkGoes(s1, decide, t.first.value, condition);
      GoesThen(st, s1, CondLink(s1, decide, t.first.value, condition), false, false);
    }
  }

  lemma JoinGoes(st: State, decide: Id, s: Stmt, t: Trail, e: Trail, names: set<string>, b: Before, o: Before)
    requires s.If? && Sane(st) && decide < st.nextId && IsDecide(st, decide) && Stands(st, t, b) && Stands(st, e, o)
    requires (b.After? <==> s.body != []) && (o.After? <==> s.orelse != [])
    requires b.After? ==> (b.atDecide <==> EndAtDecide(s.body))
    requires o.After? ==> (o.atDecide <==> EndAtDecide(s.orelse))
    ensures var (r, merge) := Join(st, decide, s, t, e, names);
      && Goes(st, r, (EndAtDecide(s.body) && !AllTerminal(s.body)) || (EndAtDecide(s.orelse) && !AllTerminal(s.orelse)))
      && Plain(r, merge)
  {
    hide Sane, IsDecide, IsSwitch, Goes, EndAtDecide, AllTerminal;
    var (s1, merge) := Push(st, Merge, []);
    PushGoes(st, Merge, []);
    GoesSane(st, s1, false);
    StandsOn(st, s1, false, t, b);
    StandsOn(st, s1, false, e, o);
    var x, y := t.last.Some? && b.atDecide && !AllTerminal(s.body), e.last.Some? && o.atDecide && !AllTerminal(s.orelse);
    var s2 := if t.last.Some? && !AllTerminal(s.body) then Link(s1, t.last.value, merge) else s1;
    SelfGoes(s1);
    if t.last.Some? {
      LinkGoes(s1, t.last.value, merge);
    }
    GoesThen(st, s1, s2, false, x);
    GoesSane(s1, s2, x);
    StandsOn(s1, s2, x, e, o);
    PlainStays(s1, s2, x, merge);
    PlainStays(st, s2, x, decide);
    var s3 := if e.last.Some? && !AllTerminal(s.orelse) then Link(s2, e.last.value, merge) else s2;
    SelfGoes(s2);
    if e.last.Some? {
      LinkGoes(s2, e.last.value, merge);
    }
    GoesThen(st, s2, s3, x, y);
    GoesSane(s2, s3, y);
    PlainStays(s2, s3, y, merge);
    PlainStays(s2, s3, y, decide);
    var s4 := JoinEdges(s1, decide, s, t, e, merge);
    SelfGoes(s3);
    CondLinkGoes(s3, decide, merge, "false");
    GoesThen(st, s3, s4, x || y, false);
    GoesSane(s3, s4, false);
    PlainStays(s3, s4, false, merge);
    RebindGoes(s4, names, merge);
    var r := Join(st, decide, s, t, e, names).0;
    GoesThen(st, s4, r, x || y, false);
    PlainStays(s4, r, false, merge);
    EndsSomewhere(s.body);
    EndsSomewhere(s.orelse);
  }

  lemma EndsSomewhere(body: seq<Stmt>)
    ensures EndAtDecide(body) ==> body != []
  {
  }

  lemma EndOfStart(body: seq<Stmt>)
    ensures EndOf(Start, body).After? <==> body != []
    ensures EndOf(Start, body).After? ==> (EndOf(Start, body).atDecide <==> EndAtDecide(body))
  {
  }

  lemma {:induction false} IfGoes(st: State, s: Stmt)
    requires s.If? && Sane(st)
    ensures StmtGoesTo(st, IfStep(st, s), s)
    decreases s, 0
  {
    hide Sane, IsDecide, IsSwitch, Goes, EndAtDecide, AllTerminal, BodyLeaks, EndOf, Stands, Gate, TransformSpec.FedBy, Join;
    var (s2, decide) := TransformSpec.FedBy(st, s.test, Decide, ["condition"]);
    FedByGoes(st, s.test, Decide, ["condition"]);
    GoesSane(st, s2, false);
    var x, y := BodyLeaks(Unchained, Start, s.body), BodyLeaks(Unchained, Start, s.orelse);
    var t := Body(s2, s.body, Unchained, NoTrail);
    StandsAtStart(s2);
    BodyGoes(s2, s.body, Unchained, NoTrail, Start);
    if t.Halted? {
      return;
    }
    var B, O := EndOf(Start, s.body), EndOf(Start, s.orelse);
    GoesThen(st, s2, t.st, false, x);
    PlainStays(s2, t.st, x, decide);
    GoesSane(s2, t.st, x);
    var s4 := Gate(t.st, decide, t.trail, "true");
    GateGoes(t.st, decide, t.trail, "true");
    GoesThen(st, t.st, s4, x, false);
    PlainStays(t.st, s4, false, decide);
    GoesSane(t.st, s4, false);
    StandsOn(t.st, s4, false, t.trail, B);
    var e := Body(s4, s.orelse, Unchained, NoTrail);
    StandsAtStart(s4);
    BodyGoes(s4, s.orelse, Unchained, NoTrail, Start);
    if e.Halted? {
      return;
    }
    GoesThen(st, s4, e.st, x, y);
    PlainStays(s4, e.st, y, decide);
    GoesSane(s4, e.st, y);
    StandsOn(s4, e.st, y, t.trail, B);
    var s6 := Gate(e.st, decide, e.trail, "false");
    GateGoes(e.st, decide, e.trail, "false");
    GoesThen(st, e.st, s6, x || y, false);
    PlainStays(e.st, s6, false, decide);
    GoesSane(e.st, s6, false);
    StandsOn(e.st, s6, false, t.trail, B);
    StandsOn(e.st, s6, false, e.trail, O);
    EndOfStart(s.body);
    EndOfStart(s.orelse);
    if !(AllTerminal(s.body) && AllTerminal(s.orelse)) {
      var names := (t.st.varMap.Keys - s2.varMap.Keys) + (e.st.varMap.Keys - s4.varMap.Keys);
      JoinGoes(s6, decide, s, t.trail, e.trail, names, B, O);
      GoesThen(st, s6, Join(s6, decide, s, t.trail, e.trail, names).0, x || y,
        (EndAtDecide(s.body) && !AllTerminal(s.body)) || (EndAtDecide(s.orelse) && !AllTerminal(s.orelse)));
    }
  }

  lemma {:induction false} ForGoes(st: State, s: Stmt)
    requires s.For? && Sane(st)
    ensures StmtGoesTo(st, ForStep(st, s), s)
    decreases s, 0
  {
    hide Sane, IsDecide, IsSwitch, Goes, BodyLeaks;
    if !s.target.Name? {
      ExprGoes(st, s.iter);
      FallbackGoes(st, ToNode(st, s.iter).0, TargetNotName);
      return;
    }
    var (s2, loop) := TransformSpec.FedBy(st, s.iter, Loop, ["target", "max_iterations"]);
    FedByGoes(st, s.iter, Loop, ["target", "max_iterations"]);
    BoundGoes(st, s2, s.target.id, loop);
    var s3 := Bind(s2, s.target.id, loop);
    GoesSane(st, s3, false);
    var x := BodyLeaks(ByControl, Start, s.body);
    BodyGoes(s3, s.body, ByControl, NoTrail, Start);
    var b := Body(s3, s.body, ByControl, NoTrail);
    if b.Walked? {
      GoesThen(st, s3, b.st, false, x);
      PlainStays(s3, b.st, x, loop);
      GoesSane(s3, b.st, x);
      SelfGoes(b.st);
      if b.trail.first.Some? {
        LinkGoes(b.st, loop, b.trail.first.value);
      }
      GoesThen(st, b.st, ForStep(st, s).st, x, false);
      PlainStays(b.st, ForStep(st, s).st, false, loop);
    }
  }

  lemma {:induction false} WithGoes(st: State, s: Stmt)
    requires s.With? && Sane(st)
    ensures StmtGoesTo(st, WithStep(st, s), s)
    decreases s, 0
  {
    hide Goes, Guarded, BodyLeaks;
    match s.item
    case ParallelItem =>
      var (s1, par) := Push(st, Parallel, []);
      PushGoes(st, Parallel, []);
      GoesSane(st, s1, false);
      ParallelBodyGoes(s1, s.body, 0, par, Start);
      var b := ParallelBody(s1, s.body, 0, par);
      if b.Walked? {
        GoesThen(st, s1, b.st, false, BodyLeaks(Unchained, Start, s.body));
        PlainStays(s1, b.st, BodyLeaks(Unchained, Start, s.body), par);
      }
    case GroupItem(title) => GroupGoes(st, s, title);
    case OtherItem =>
      SelfGoes(st);
      FallbackGoes(st, st, UnsupportedWith);
  }

  lemma {:induction false} GroupGoes(st: State, s: Stmt, title: string)
    requires s.With? && s.item == GroupItem(title) && Sane(st)
    ensures StmtGoesTo(st, WithStep(st, s), s)
    decreases s, 0, 0
  {
    hide Goes, Guarded, BodyLeaks;
    var s1 := st.(group := Some(title));
    AsideGoes(st, s1);
    GoesSane(st, s1, false);
    var x := BodyLeaks(ByData, Start, s.body);
    BodyGoes(s1, s.body, ByData, NoTrail, Start);
    var b := Body(s1, s.body, ByData, NoTrail);
    if b.Walked? {
      GoesThen(st, s1, b.st, false, x);
      GoesSane(s1, b.st, x);
      SpareGoes(b.st, b.st.(group := st.group));
      var r := GenId(b.st.(group := st.group)).0;
      GoesThen(st, b.st, r, x, false);
      StandsOn(b.st, r, false, b.trail, EndOf(Start, s.body));
      EndOfStart(s.body);
      EndsSomewhere(s.body);
      assert WithStep(st, s).st == r;
      assert EndsAtDecide(s) <==> EndAtDecide(s.body);
      assert Leaks(s) <==> x;
    }
  }

  lemma {:induction false} MatchGoes(st: State, s: Stmt)
    requires s.Match? && Sane(st)
    ensures StmtGoesTo(st, MatchStep(st, s), s)
    decreases s, 0
  {
    hide Goes, Guarded, CasesLeak;
    var (s1, switch) := TransformSpec.FedBy(st, s.subject, Switch, ["source"]);
    FedByGoes(st, s.subject, Switch, ["source"]);
    GoesSane(st, s1, false);
    CasesGo(s1, s.cases, switch, false);
    var r := Cases(s1, s.cases, switch, false);
    if r.Walked? {
      GoesThen(st, s1, r.st, false, CasesLeak(s.cases));
      PlainStays(s1, r.st, CasesLeak(s.cases), switch);
    }
  }

  lemma EnterGoes(st: State, switch: Id, pattern: Pattern, t: Trail)
    requires Sane(st) && Plain(st, switch) && IsSwitch(st, switch)
    ensures Goes(st, EnterCase(st, switch, pattern, t), false)
  {
    hide Goes, Guarded;
    SelfGoes(st);
    if t.lastFirst.Some? {
      LinkGoes(st, switch, t.lastFirst.value);
      if pattern.Literal? {
        CondLinkGoes(st, switch, t.lastFirst.value, pattern.text);
      }
    }
  }

  lemma {:induction false} CasesGo(st: State, cases: seq<Case>, switch: Id, hasDefault: bool)
    requires Sane(st) && Plain(st, switch) && IsSwitch(st, switch)
    ensures var r := Cases(st, cases, switch, hasDefault); r.Walked? ==> Goes(st, r.st, CasesLeak(cases))
    decreases cases, 0
  {
    hide Sane, IsDecide, IsSwitch, Goes, BodyLeaks;
    if cases == [] {
      SelfGoes(st);
      return;
    }
    var c := cases[0];
    var r := Cases(st, cases, switch, hasDefault);
    if c.pattern.Unsupported? {
      var s1 := AddFault(st, UnsupportedPattern);
      AsideGoes(st, s1);
      GoesSane(st, s1, false);
      PlainStays(st, s1, false, switch);
      CasesGo(s1, cases[1..], switch, hasDefault);
      if r.Walked? {
        GoesThen(st, s1, r.st, false, CasesLeak(cases[1..]));
      }
      return;
    }
    var s1 := if c.pattern.Capture? && hasDefault then AddFault(st, ManyDefaults) else st;
    AsideGoes(st, s1);
    GoesSane(st, s1, false);
    var x := BodyLeaks(Unchained, Start, c.body);
    BodyGoes(s1, c.body, Unchained, NoTrail, Start);
    var b := Body(s1, c.body, Unchained, NoTrail);
    if b.Walked? {
      GoesThen(st, s1, b.st, false, x);
      GoesSane(s1, b.st, x);
      PlainStays(st, b.st, x, switch);
      var s3 := EnterCase(b.st, switch, c.pattern, b.trail);
      EnterGoes(b.st, switch, c.pattern, b.trail);
      GoesThen(st, b.st, s3, x, false);
      GoesSane(b.st, s3, false);
      PlainStays(b.st, s3, false, switch);
      CasesGo(s3, cases[1..], switch, hasDefault || c.pattern.Capture?);
      if r.Walked? {
        GoesThen(st, s3, r.st, x, CasesLeak(cases[1..]));
      }
    }
  }

  // ── Modules ─────────────────────────────────────────────────────

  lemma {:induction false} ParamsGo(st: State, names: seq<string>)
    requires Sane(st)
    ensures Goes(st, Params(st, names), false)
    decreases names
  {
    hide Goes, Guarded;
    if names == [] {
      SelfGoes(st);
    } else {
      var (s1, n) := Push(st, Input, ["name"]);
      var s2 := Bind(s1, names[0], n);
      PushGoes(st, Input, ["name"]);
      GoesSane(st, s1, false);
      BoundGoes(st, s1, names[0], n);
      GoesSane(st, s2, false);
      ParamsGo(s2, names[1..]);
      GoesThen(st, s2, Params(st, names), false, false);
    }
  }

  /** In the plan of an accepted program an edge without a condition leaves a DECIDE if and only if the
      syntax says so. */
  lemma LeaksIff(m: seq<TopLevel>)
    requires ModuleStep(m).Ok?
    ensures var st := ModuleStep(m).value;
      BodyLeaks(ByControl, Start, GraphBody(m)) <==>
      exists n, e :: n in st.nodes && n.op == Decide && e in st.edges && e.from == n.id && e.condition.None?
  {
    hide Goes, Guarded, BodyLeaks;
    ModuleGoes(m);
    LeaksOf(Initial, ModuleStep(m).value, BodyLeaks(ByControl, Start, GraphBody(m)));
  }

  /** In the plan of an accepted program an edge with a condition leaves a DECIDE or a SWITCH, and a SWITCH
      has no condition. */
  lemma ConditionsInPlace(m: seq<TopLevel>)
    requires ModuleStep(m).Ok?
    ensures Guarded(ModuleStep(m).value)
  {
    hide BodyLeaks;
    ModuleGoes(m);
  }

  lemma ModuleGoes(m: seq<TopLevel>)
    requires ModuleStep(m).Ok?
    ensures Goes(Initial, ModuleStep(m).value, BodyLeaks(ByControl, Start, GraphBody(m)))
  {
    hide Goes, BodyLeaks;
    FindGraphFinds(m);
    var f := FindGraph(m).value;
    var s1 := Params(Initial, f.args);
    var s2 := Params(s1, f.posonlyargs);
    assert Sane(Initial);
    hide Guarded;
    ParamsGo(Initial, f.args);
    GoesSane(Initial, s1, false);
    ParamsGo(s1, f.posonlyargs);
    GoesSane(s1, s2, false);
    GoesThen(Initial, s1, s2, false, false);
    BodyGoes(s2, f.body, ByControl, NoTrail, Start);
    GoesThen(Initial, s2, ModuleStep(m).value, false, BodyLeaks(ByControl, Start, f.body));
  }

  lemma LeaksOf(a: State, b: State, leak: bool)
    requires Goes(a, b, leak) && a.edges == []
    ensures leak <==> exists n, e :: n in b.nodes && n.op == Decide && e in b.edges && e.from == n.id && e.condition.None?
  {
    if leak {
      var k: nat :| LeakAt(a, b, k);
      assert b.edges[k] in b.edges;
    }
    if n, e :| n in b.nodes && n.op == Decide && e in b.edges && e.from == n.id && e.condition.None? {
      var k :| 0 <= k < |b.edges| && b.edges[k] == e;
      assert LeakAt(a, b, k);
    }
  }
}
