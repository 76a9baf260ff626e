/** Data flow of expressions: the node of an expression depends on the writers of exactly the
    variables that the expression reads. */
module TransformReads {
  import opened Wrappers
  import opened Graphs
  import opened Plan
  import opened Ast
  import opened TransformSpec

  // ── What an expression reads ────────────────────────────────────

  /** Every name in an expression. */
  function Names(e: Expr): set<string>
    decreases e, 1
  {
    match e
    case Name(id) => {id}
    case Attribute(value, _) => Names(value)
    case Subscript(value, slice) => Names(value) + Names(slice)
    case Call(func, args, keywords) => Names(func) + NamesAll(args) + NamesOfKeywords(keywords)
    case Compound(parts) => NamesAll(parts)
    case Leaf => {}
  }

  function NamesAll(es: seq<Expr>): set<string>
    decreases es, 0
  {
    if es == [] then {} else Names(es[0]) + NamesAll(es[1..])
  }

  function NamesOfKeywords(ks: seq<Keyword>): set<string>
    decreases ks, 0
  {
    if ks == [] then {} else Names(ks[0].value) + NamesOfKeywords(ks[1..])
  }

  /** The names whose values an expression needs. A call needs those of its arguments and not its
      own name; `sleep` and the builtins take no keywords. */
  function Reads(e: Expr): set<string>
    decreases e, 1
  {
    match e
    case Call(func, args, keywords) =>
      (match Callee(func)
       case None => {}
       case Some(name) =>
         if name == "call" || name == "act" then ReadsAll(args) + ReadsOfKeywords(keywords)
         else if name == "sleep" || IsBuiltin(name) then ReadsAll(args)
         else ReadsAll(args) + ReadsOfKeywords(keywords))
    case _ => Names(e)
  }

  function ReadsAll(es: seq<Expr>): set<string>
    decreases es, 0
  {
    if es == [] then {} else Reads(es[0]) + ReadsAll(es[1..])
  }

  function ReadsOfKeywords(ks: seq<Keyword>): set<string>
    decreases ks, 0
  {
    if ks == [] then {} else Reads(ks[0].value) + ReadsOfKeywords(ks[1..])
  }

  // ── Direct edges ────────────────────────────────────────────────

  /** `id` is the writer of one of these variables. */
  ghost predicate Writes(st: State, id: Id, names: set<string>) {
    exists x :: x in names && x in st.varMap && st.varMap[x] == id
  }

  /** The edges added on the way from `st` to `r` are edges to `target`, from the writers of
      `names` and from no other node. */
  ghost predicate WiredTo(st: State, r: State, names: set<string>, target: Id) {
    && st.edges <= r.edges && r == st.(edges := r.edges)
    && (forall k :: |st.edges| <= k < |r.edges| ==> r.edges[k].to == target && Writes(st, r.edges[k].from, names))
    && (forall x :: x in names && x in st.varMap ==> (st.varMap[x], target) in Arcs(r.edges[|st.edges|..]))
  }

  lemma WiredNothing(st: State, target: Id)
    ensures WiredTo(st, st, {}, target)
  {
  }

  lemma WiredOne(st: State, name: string, target: Id)
    ensures WiredTo(st, if name in st.varMap then Link(st, st.varMap[name], target) else st, {name}, target)
  {
    if name in st.varMap {
      var r := Link(st, st.varMap[name], target);
      assert r.edges[|st.edges|..] == [NewEdge(st.varMap[name], target, None, Data)];
      assert NewEdge(st.varMap[name], target, None, Data) in r.edges[|st.edges|..];
      assert Writes(st, st.varMap[name], {name});
    }
  }

  lemma WiredThen(a: State, b: State, c: State, first: set<string>, second: set<string>, target: Id)
    requires WiredTo(a, b, first, target) && WiredTo(b, c, second, target)
    ensures WiredTo(a, c, first + second, target)
  {
    var early, late := b.edges[|a.edges|..], c.edges[|b.edges|..];
    assert c.edges[|a.edges|..] == early + late;
    ArcsConcat(early, late);
    forall k | |a.edges| <= k < |c.edges|
      ensures c.edges[k].to == target && Writes(a, c.edges[k].from, first + second)
    {
      if k < |b.edges| {
        assert c.edges[k] == b.edges[k];
        WritesMore(a, b.edges[k].from, first, first + second);
      } else {
        assert Writes(b, c.edges[k].from, second);
        WritesMore(a, c.edges[k].from, second, first + second);
      }
    }
  }

  lemma WritesMore(st: State, id: Id, few: set<string>, many: set<string>)
    requires few <= many
    ensures Writes(st, id, few) ==> Writes(st, id, many)
  {
  }

  lemma ArcsConcat(a: seq<Edge>, b: seq<Edge>)
    ensures Arcs(a + b) == Arcs(a) + Arcs(b)
  {
    forall x | x in Arcs(a) + Arcs(b)
      ensures x in Arcs(a + b)
    {
      if x in Arcs(a) {
        var e :| e in a && (e.from, e.to) == x;
        assert e in a + b;
      } else {
        var e :| e in b && (e.from, e.to) == x;
        assert e in a + b;
      }
    }
  }

  /** Wiring an expression to a node adds an edge from the writer of each name in it, and no other. */
  lemma {:induction false} WiresNames(st: State, e: Expr, target: Id)
    ensures WiredTo(st, WireDeps(st, e, target), Names(e), target)
    decreases e, 1
  {
    hide WiredTo;
    match e
    case Name(id) => WiredOne(st, id, target);
    case Attribute(value, _) => WiresNames(st, value, target);
    case Subscript(value, slice) =>
      WiresNames(st, value, target);
      WiresNames(WireDeps(st, value, target), slice, target);
      WiredThen(st, WireDeps(st, value, target), WireDeps(st, e, target), Names(value), Names(slice), target);
    case Call(func, args, keywords) =>
      var s1 := WireDeps(st, func, target);
      var s2 := WireAll(s1, args, target);
      WiresNames(st, func, target);
      WiresAllNames(s1, args, target);
      WiredThen(st, s1, s2, Names(func), NamesAll(args), target);
      WiresKeywordNames(s2, keywords, target);
      WiredThen(st, s2, WireDeps(st, e, target), Names(func) + NamesAll(args), NamesOfKeywords(keywords), target);
    case Compound(parts) => WiresAllNames(st, parts, target);
    case Leaf => WiredNothing(st, target);
  }

  lemma {:induction false} WiresAllNames(st: State, es: seq<Expr>, target: Id)
    ensures WiredTo(st, WireAll(st, es, target), NamesAll(es), target)
    decreases es, 0
  {
    hide WiredTo;
    if es == [] {
      WiredNothing(st, target);
    } else {
      var s1 := WireDeps(st, es[0], target);
      WiresNames(st, es[0], target);
      WiresAllNames(s1, es[1..], target);
      WiredThen(st, s1, WireAll(st, es, target), Names(es[0]), NamesAll(es[1..]), target);
    }
  }

  lemma {:induction false} WiresKeywordNames(st: State, ks: seq<Keyword>, target: Id)
    ensures WiredTo(st, WireKeywords(st, ks, target), NamesOfKeywords(ks), target)
    decreases ks, 0
  {
    hide WiredTo;
    if ks == [] {
      WiredNothing(st, target);
    } else {
      var s1 := WireDeps(st, ks[0].value, target);
      WiresNames(st, ks[0].value, target);
      WiresKeywordNames(s1, ks[1..], target);
      WiredThen(st, s1, WireKeywords(st, ks, target), Names(ks[0].value), NamesOfKeywords(ks[1..]), target);
    }
  }

  // ── Paths ───────────────────────────────────────────────────────

  /** From `st` to `r` no variable changed hands; there is a path to `n` from the writer of each
      variable in `names`; and the edges added leave new nodes or those writers. */
  ghost predicate FedBy(st: State, r: State, names: set<string>, n: Id) {
    && st.edges <= r.edges && r.varMap == st.varMap && st.nextId <= r.nextId
    && (forall x :: x in names && x in st.varMap ==> Reaches(Arcs(r.edges), st.varMap[x], n))
    && (forall k :: |st.edges| <= k < |r.edges| ==> r.edges[k].from >= st.nextId || Writes(st, r.edges[k].from, names))
  }

  lemma ArcsGrow(a: seq<Edge>, b: seq<Edge>)
    requires a <= b
    ensures Arcs(a) <= Arcs(b)
  {
    assert b == a + b[|a|..];
    ArcsConcat(a, b[|a|..]);
  }

  lemma FedNothing(st: State, r: State, n: Id)
    requires r.edges == st.edges && r.varMap == st.varMap && st.nextId <= r.nextId
    ensures FedBy(st, r, {}, n)
  {
  }

  lemma FedThen(a: State, b: State, c: State, first: set<string>, second: set<string>, n: Id)
    requires FedBy(a, b, first, n) && FedBy(b, c, second, n)
    ensures FedBy(a, c, first + second, n)
  {
    ArcsGrow(b.edges, c.edges);
    forall x | x in first + second && x in a.varMap
      ensures Reaches(Arcs(c.edges), a.varMap[x], n)
    {
      if x in first {
        ReachesMono(Arcs(b.edges), Arcs(c.edges), a.varMap[x], n);
      }
    }
    forall k | |a.edges| <= k < |c.edges|
      ensures c.edges[k].from >= a.nextId || Writes(a, c.edges[k].from, first + second)
    {
      if k < |b.edges| {
        assert c.edges[k] == b.edges[k];
        WritesMore(a, b.edges[k].from, first, first + second);
      } else {
        WritesMore(a, c.edges[k].from, second, first + second);
        assert Writes(b, c.edges[k].from, second) ==> Writes(a, c.edges[k].from, second);
      }
    }
  }

  /** One more edge, from a node that was fed to its consumer. */
  lemma FedOn(a: State, b: State, names: set<string>, n: Id, target: Id)
    requires FedBy(a, b, names, n) && n >= a.nextId
    ensures FedBy(a, Link(b, n, target), names, target)
  {
    var c := Link(b, n, target);
    ArcsGrow(b.edges, c.edges);
    assert c.edges[|b.edges|] in c.edges;
    assert (n, target) in Arcs(c.edges);
    forall x | x in names && x in a.varMap
      ensures Reaches(Arcs(c.edges), a.varMap[x], target)
    {
      ReachesMono(Arcs(b.edges), Arcs(c.edges), a.varMap[x], n);
      ReachesArc(Arcs(c.edges), n, target);
      ReachesTrans(Arcs(c.edges), a.varMap[x], n, target);
    }
    forall k | |a.edges| <= k < |c.edges|
      ensures c.edges[k].from >= a.nextId || Writes(a, c.edges[k].from, names)
    {
      if k < |b.edges| {
        assert c.edges[k] == b.edges[k];
      }
    }
  }

  lemma WiredIsFed(a: State, b: State, c: State, names: set<string>, n: Id)
    requires b.edges == a.edges && b.varMap == a.varMap && a.nextId <= b.nextId && WiredTo(b, c, names, n)
    ensures FedBy(a, c, names, n)
  {
    forall x | x in names && x in a.varMap
      ensures Reaches(Arcs(c.edges), a.varMap[x], n)
    {
      assert c.edges == c.edges[..|b.edges|] + c.edges[|b.edges|..];
      ArcsConcat(c.edges[..|b.edges|], c.edges[|b.edges|..]);
      ReachesArc(Arcs(c.edges), a.varMap[x], n);
    }
    forall k | |a.edges| <= k < |c.edges|
      ensures Writes(a, c.edges[k].from, names)
    {
      assert Writes(b, c.edges[k].from, names);
    }
  }

  /** Every expression, however nested: there is a path to its node from the writer of each
      variable that it reads, and only from those writers do new edges leave old nodes. */
  lemma {:induction false} ReadsAreFed(st: State, e: Expr)
    ensures var (r, n) := ToNode(st, e); FedBy(st, r, Reads(e), n) && st.nextId <= n < r.nextId
    decreases e, 1
  {
    hide FedBy, WiredTo, Reaches, IsBuiltin;
    match e
    case Call(func, args, keywords) => CallIsFed(st, e);
    case _ =>
      var s1 := Push(st, Calc, ["expr"]).0;
      WiresNames(s1, e, st.nextId);
      WiredIsFed(st, s1, WireDeps(s1, e, st.nextId), Names(e), st.nextId);
  }

  lemma {:induction false} CallIsFed(st: State, e: Expr)
    requires e.Call?
    ensures var (r, n) := ToNode(st, e); FedBy(st, r, Reads(e), n) && st.nextId <= n < r.nextId
    decreases e, 0
  {
    hide FedBy, WiredTo, Reaches, IsBuiltin;
    match Callee(e.func)
    case None => FedNothing(st, ToNode(st, e).0, st.nextId);
    case Some(name) =>
      var n := st.nextId;
      if name == "call" || name == "act" {
        ArgumentsFeed(st, Push(st, Opcode.Call, ["type", "target"] + KeywordNames(e.keywords)).0, e, n, true);
      } else if name == "sleep" {
        ArgumentsFeed(st, Push(st, Wait, ["duration_secs"]).0, e, n, false);
      } else if IsBuiltin(name) {
        var (s1, ids) := ToNodes(st, e.args);
        EachIsFed(st, e.args);
        FeedsAll(st, s1, Push(s1, Calc, ["expr"]).0, e.args, ids, s1.nextId);
      } else {
        ArgumentsFeed(st, Push(st, Calc, ["expr"]).0, e, n, true);
      }
  }

  /** The arguments of a call whose node was just pushed. */
  lemma {:induction false} ArgumentsFeed(st: State, s1: State, e: Expr, n: Id, withKeywords: bool)
    requires e.Call? && s1.edges == st.edges && s1.varMap == st.varMap && st.nextId < s1.nextId && n == st.nextId
    ensures var s2 := Feed(s1, e.args, n);
      var r := if withKeywords then FeedKeywords(s2, e.keywords, n) else s2;
      && FedBy(st, r, if withKeywords then ReadsAll(e.args) + ReadsOfKeywords(e.keywords) else ReadsAll(e.args), n)
      && st.nextId <= n < r.nextId
    decreases e, 0, 0
  {
    hide FedBy, Reaches;
    var s2 := Feed(s1, e.args, n);
    FedNothing(st, s1, n);
    AllAreFed(s1, e.args, n);
    FedThen(st, s1, s2, {}, ReadsAll(e.args), n);
    assert {} + ReadsAll(e.args) == ReadsAll(e.args);
    if withKeywords {
      KeywordsAreFed(s2, e.keywords, n);
      FedThen(st, s2, FeedKeywords(s2, e.keywords, n), ReadsAll(e.args), ReadsOfKeywords(e.keywords), n);
    }
  }

  lemma {:induction false} AllAreFed(st: State, es: seq<Expr>, target: Id)
    ensures FedBy(st, Feed(st, es, target), ReadsAll(es), target)
    decreases es, 0
  {
    hide FedBy, Reaches;
    if es == [] {
      FedNothing(st, st, target);
    } else {
      var (s1, n) := ToNode(st, es[0]);
      ReadsAreFed(st, es[0]);
      FedOn(st, s1, Reads(es[0]), n, target);
      AllAreFed(Link(s1, n, target), es[1..], target);
      FedThen(st, Link(s1, n, target), Feed(st, es, target), Reads(es[0]), ReadsAll(es[1..]), target);
    }
  }

  lemma {:induction false} KeywordsAreFed(st: State, ks: seq<Keyword>, target: Id)
    ensures FedBy(st, FeedKeywords(st, ks, target), ReadsOfKeywords(ks), target)
    decreases ks, 0
  {
    hide FedBy, Reaches;
    if ks == [] {
      FedNothing(st, st, target);
    } else {
      var (s1, n) := ToNode(st, ks[0].value);
      ReadsAreFed(st, ks[0].value);
      FedOn(st, s1, Reads(ks[0].value), n, target);
      KeywordsAreFed(Link(s1, n, target), ks[1..], target);
      FedThen(st, Link(s1, n, target), FeedKeywords(st, ks, target), Reads(ks[0].value), ReadsOfKeywords(ks[1..]), target);
    }
  }

  // Arguments of a builtin are computed first and linked afterwards.

  /** Each node of the list is fed by what its own expression reads. */
  ghost predicate FedEach(st: State, r: State, es: seq<Expr>, ids: seq<Id>) {
    && |ids| == |es| && st.edges <= r.edges && r.varMap == st.varMap && st.nextId <= r.nextId
    && (forall i, x :: 0 <= i < |es| && x in Reads(es[i]) && x in st.varMap ==> Reaches(Arcs(r.edges), st.varMap[x], ids[i]))
    && (forall i :: 0 <= i < |ids| ==> ids[i] >= st.nextId)
    && (forall k :: |st.edges| <= k < |r.edges| ==> r.edges[k].from >= st.nextId || Writes(st, r.edges[k].from, ReadsAll(es)))
  }

  lemma {:induction false} EachIsFed(st: State, es: seq<Expr>)
    ensures FedEach(st, ToNodes(st, es).0, es, ToNodes(st, es).1)
    decreases es, 0
  {
    if es != [] {
      var (s1, n) := ToNode(st, es[0]);
      ReadsAreFed(st, es[0]);
      EachIsFed(s1, es[1..]);
      EachThen(st, s1, ToNodes(s1, es[1..]).0, es, n, ToNodes(s1, es[1..]).1);
    }
  }

  lemma EachThen(st: State, s1: State, r: State, es: seq<Expr>, n: Id, rest: seq<Id>)
    requires es != [] && FedBy(st, s1, Reads(es[0]), n) && n >= st.nextId && FedEach(s1, r, es[1..], rest)
    ensures FedEach(st, r, es, [n] + rest)
  {
    ArcsGrow(s1.edges, r.edges);
    forall i, x | 0 <= i < |es| && x in Reads(es[i]) && x in st.varMap
      ensures Reaches(Arcs(r.edges), st.varMap[x], ([n] + rest)[i])
    {
      if i == 0 {
        ReachesMono(Arcs(s1.edges), Arcs(r.edges), st.varMap[x], n);
      } else {
        assert es[1..][i - 1] == es[i];
      }
    }
    forall k | |st.edges| <= k < |r.edges|
      ensures r.edges[k].from >= st.nextId || Writes(st, r.edges[k].from, ReadsAll(es))
    {
      if k < |s1.edges| {
        assert r.edges[k] == s1.edges[k];
        WritesMore(st, s1.edges[k].from, Reads(es[0]), ReadsAll(es));
      } else {
        WritesMore(s1, r.edges[k].from, ReadsAll(es[1..]), ReadsAll(es));
        assert Writes(s1, r.edges[k].from, ReadsAll(es)) ==> Writes(st, r.edges[k].from, ReadsAll(es));
      }
    }
  }

  lemma {:induction false} InReadsAll(es: seq<Expr>, x: string) returns (i: nat)
    requires x in ReadsAll(es)
    ensures i < |es| && x in Reads(es[i])
  {
    if x in Reads(es[0]) {
      i := 0;
    } else {
      i := InReadsAll(es[1..], x);
      i := i + 1;
    }
  }

  lemma {:induction false} LinksAll(st: State, froms: seq<Id>, to: Id)
    ensures var r := LinkAll(st, froms, to);
      && r == st.(edges := r.edges) && |r.edges| == |st.edges| + |froms| && st.edges <= r.edges
      && forall i :: 0 <= i < |froms| ==> r.edges[|st.edges| + i].from == froms[i] && r.edges[|st.edges| + i].to == to
    decreases froms
  {
    if froms != [] {
      var s1, r := Link(st, froms[0], to), LinkAll(st, froms, to);
      LinksAll(s1, froms[1..], to);
      forall i | 0 <= i < |froms|
        ensures r.edges[|st.edges| + i].from == froms[i] && r.edges[|st.edges| + i].to == to
      {
        if i == 0 {
          assert r.edges[|st.edges|] == s1.edges[|st.edges|];
        } else {
          assert froms[1..][i - 1] == froms[i];
          assert r.edges[|s1.edges| + (i - 1)].from == froms[1..][i - 1];
        }
      }
    }
  }

  lemma FeedsAll(st: State, s1: State, s2: State, es: seq<Expr>, ids: seq<Id>, n: Id)
    requires FedEach(st, s1, es, ids) && s2.edges == s1.edges && s2.varMap == s1.varMap && s1.nextId < s2.nextId
    ensures FedBy(st, LinkAll(s2, ids, n), ReadsAll(es), n)
  {
    LinksAll(s2, ids, n);
    var r := LinkAll(s2, ids, n);
    ArcsGrow(s1.edges, r.edges);
    forall x | x in ReadsAll(es) && x in st.varMap
      ensures Reaches(Arcs(r.edges), st.varMap[x], n)
    {
      var i := InReadsAll(es, x);
      ReachesMono(Arcs(s1.edges), Arcs(r.edges), st.varMap[x], ids[i]);
      assert r.edges[|s2.edges| + i] in r.edges;
      ReachesArc(Arcs(r.edges), ids[i], n);
      ReachesTrans(Arcs(r.edges), st.varMap[x], ids[i], n);
    }
    forall k | |st.edges| <= k < |r.edges|
      ensures r.edges[k].from >= st.nextId || Writes(st, r.edges[k].from, ReadsAll(es))
    {
      if k < |s1.edges| {
        assert r.edges[k] == s1.edges[k];
      } else {
        assert r.edges[|s2.edges| + (k - |s2.edges|)].from == ids[k - |s2.edges|];
      }
    }
  }

  // ── From definition to use ──────────────────────────────────────

  /** After `x = e1` an expression that reads `x` next depends on the node of `e1`, and still
      does in every continuation of the program. */
  lemma DefinitionReachesUse(st: State, x: string, e1: Expr, e2: Expr, final: State)
    requires x in Reads(e2) && Extends(ToNode(AssignStep(st, [Name(x)], e1).st, e2).0, final)
    ensures Reaches(Arcs(final.edges), AssignStep(st, [Name(x)], e1).last, ToNode(AssignStep(st, [Name(x)], e1).st, e2).1)
  {
    var s1 := AssignStep(st, [Name(x)], e1).st;
    var (s2, n) := ToNode(s1, e2);
    ReadsAreFed(s1, e2);
    ArcsGrow(s2.edges, final.edges);
    ReachesMono(Arcs(s2.edges), Arcs(final.edges), s1.varMap[x], n);
  }
}
