/** The drawing of a plan: hidden feeder nodes are bridged, and groups can be collapsed.

    `hidden` is any set of node indices; the texts that decide what to hide are not modelled. */
module PlanView {
  import opened Wrappers
  import opened Graphs
  import opened Plan
  import opened Compiled

  datatype ViewNode = ViewNode(index: nat, groupId: Option<nat>)

  datatype ViewEdge = ViewEdge(from: nat, to: nat, caption: Option<string>, control: bool)

  ghost function ViewArcs(edges: seq<ViewEdge>): set<(nat, nat)> {
    set e | e in edges :: (e.from, e.to)
  }

  // ── What bridging means ─────────────────────────────────────────

  /** A walk from a visible node whose other nodes are all hidden. */
  ghost predicate RootWalk(arcs: set<(nat, nat)>, hidden: set<nat>, p: seq<nat>, r: nat, idx: nat) {
    WalkFromTo(arcs, p, r, idx) && r !in hidden && forall i :: 0 < i < |p| ==> p[i] in hidden
  }

  ghost predicate IsRoot(arcs: set<(nat, nat)>, hidden: set<nat>, r: nat, idx: nat) {
    if idx in hidden then exists p :: RootWalk(arcs, hidden, p, r, idx) else r == idx
  }

  /** A walk to a visible node whose other nodes are all hidden. */
  ghost predicate LeafWalk(arcs: set<(nat, nat)>, hidden: set<nat>, p: seq<nat>, idx: nat, l: nat) {
    WalkFromTo(arcs, p, idx, l) && l !in hidden && forall i :: 0 <= i < |p| - 1 ==> p[i] in hidden
  }

  ghost predicate IsLeaf(arcs: set<(nat, nat)>, hidden: set<nat>, idx: nat, l: nat) {
    if idx in hidden then exists p :: LeafWalk(arcs, hidden, p, idx, l) else l == idx
  }

  ghost predicate BridgeWalk(arcs: set<(nat, nat)>, hidden: set<nat>, p: seq<nat>, a: nat, b: nat) {
    |p| >= 2 && WalkFromTo(arcs, p, a, b) && forall i :: 0 < i < |p| - 1 ==> p[i] in hidden
  }

  /** Two visible nodes joined by a plan path whose inner nodes are all hidden. */
  ghost predicate Bridged(arcs: set<(nat, nat)>, hidden: set<nat>, a: nat, b: nat) {
    a != b && a !in hidden && b !in hidden && exists p :: BridgeWalk(arcs, hidden, p, a, b)
  }

  /** The plan edge (u, v) is drawn as (a, b). */
  ghost predicate DrawnAs(arcs: set<(nat, nat)>, hidden: set<nat>, u: nat, v: nat, a: nat, b: nat) {
    a != b && IsRoot(arcs, hidden, a, u) && IsLeaf(arcs, hidden, v, b)
  }

  lemma RootStep(arcs: set<(nat, nat)>, hidden: set<nat>, r: nat, u: nat, v: nat)
    requires (u, v) in arcs && v in hidden && IsRoot(arcs, hidden, r, u)
    ensures IsRoot(arcs, hidden, r, v)
  {
    var p := [u];
    if u in hidden {
      p :| RootWalk(arcs, hidden, p, r, u);
    }
    assert RootWalk(arcs, hidden, p + [v], r, v);
  }

  lemma RootBack(arcs: set<(nat, nat)>, hidden: set<nat>, r: nat, v: nat) returns (u: nat)
    requires v in hidden && IsRoot(arcs, hidden, r, v)
    ensures (u, v) in arcs && IsRoot(arcs, hidden, r, u)
  {
    var p :| RootWalk(arcs, hidden, p, r, v);
    u := p[|p| - 2];
    assert (p[|p| - 2], p[|p| - 1]) in arcs;
    if u in hidden {
      assert RootWalk(arcs, hidden, p[..|p| - 1], r, u);
    } else {
      assert |p| == 2;
    }
  }

  lemma LeafStep(arcs: set<(nat, nat)>, hidden: set<nat>, u: nat, v: nat, l: nat)
    requires (u, v) in arcs && u in hidden && IsLeaf(arcs, hidden, v, l)
    ensures IsLeaf(arcs, hidden, u, l)
  {
    var p := [v];
    if v in hidden {
      p :| LeafWalk(arcs, hidden, p, v, l);
    }
    assert LeafWalk(arcs, hidden, [u] + p, u, l);
  }

  lemma LeafForth(arcs: set<(nat, nat)>, hidden: set<nat>, u: nat, l: nat) returns (v: nat)
    requires u in hidden && IsLeaf(arcs, hidden, u, l)
    ensures (u, v) in arcs && IsLeaf(arcs, hidden, v, l)
  {
    var p :| LeafWalk(arcs, hidden, p, u, l);
    v := p[1];
    assert (p[0], p[1]) in arcs;
    if v in hidden {
      assert LeafWalk(arcs, hidden, p[1..], v, l);
    } else {
      assert |p| == 2;
    }
  }

  lemma RootIsVisible(arcs: set<(nat, nat)>, hidden: set<nat>, r: nat, idx: nat) returns (p: seq<nat>)
    requires IsRoot(arcs, hidden, r, idx)
    ensures RootWalk(arcs, hidden, p, r, idx) || (idx !in hidden && r == idx && p == [idx])
    ensures r !in hidden && WalkFromTo(arcs, p, r, idx) && forall i :: 0 < i < |p| ==> p[i] in hidden
  {
    p := [idx];
    if idx in hidden {
      p :| RootWalk(arcs, hidden, p, r, idx);
    }
  }

  lemma LeafIsVisible(arcs: set<(nat, nat)>, hidden: set<nat>, idx: nat, l: nat) returns (p: seq<nat>)
    requires IsLeaf(arcs, hidden, idx, l)
    ensures l !in hidden && WalkFromTo(arcs, p, idx, l) && forall i :: 0 <= i < |p| - 1 ==> p[i] in hidden
  {
    p := [idx];
    if idx in hidden {
      p :| LeafWalk(arcs, hidden, p, idx, l);
    }
  }

  /** The pairs drawn for the plan edges are exactly the bridged pairs. */
  lemma DrawnIffBridged(arcs: set<(nat, nat)>, hidden: set<nat>, a: nat, b: nat)
    ensures Bridged(arcs, hidden, a, b) <==> exists u, v :: (u, v) in arcs && DrawnAs(arcs, hidden, u, v, a, b)
  {
    if exists u, v :: (u, v) in arcs && DrawnAs(arcs, hidden, u, v, a, b) {
      var u, v :| (u, v) in arcs && DrawnAs(arcs, hidden, u, v, a, b);
      var p := RootIsVisible(arcs, hidden, a, u);
      var q := LeafIsVisible(arcs, hidden, v, b);
      assert BridgeWalk(arcs, hidden, p + q, a, b);
    }
    if Bridged(arcs, hidden, a, b) {
      var p :| BridgeWalk(arcs, hidden, p, a, b);
      assert (p[0], p[1]) in arcs;
      if |p| > 2 {
        assert LeafWalk(arcs, hidden, p[1..], p[1], b);
      }
      assert DrawnAs(arcs, hidden, a, p[1], a, b);
    }
  }

  // ── Termination of the bridging recursion ───────────────────────

  /** The hidden nodes are ranked along the edges between them. Without such a rank, that is
      with a cycle of hidden nodes, the recursion does not end. */
  ghost predicate Ranked(edges: seq<CompiledEdge>, hidden: set<nat>, rank: map<nat, nat>) {
    && hidden <= rank.Keys
    && forall e :: e in edges && e.fromIndex in hidden && e.toIndex in hidden ==> rank[e.fromIndex] < rank[e.toIndex]
  }

  ghost predicate Bounded(rank: map<nat, nat>, top: nat) {
    forall k :: k in rank ==> rank[k] < top
  }

  ghost predicate HiddenAcyclic(edges: seq<CompiledEdge>, hidden: set<nat>) {
    Acyclic(set e | e in edges && e.fromIndex in hidden && e.toIndex in hidden :: (e.fromIndex, e.toIndex))
  }

  lemma RankHidden(edges: seq<CompiledEdge>, hidden: set<nat>) returns (rank: map<nat, nat>, top: nat)
    requires HiddenAcyclic(edges, hidden)
    ensures Ranked(edges, hidden, rank) && Bounded(rank, top)
  {
    var inner := set e | e in edges && e.fromIndex in hidden && e.toIndex in hidden :: (e.fromIndex, e.toIndex);
    rank := RankOf(inner, hidden);
    forall e | e in edges && e.fromIndex in hidden && e.toIndex in hidden
      ensures rank[e.fromIndex] < rank[e.toIndex]
    {
      assert (e.fromIndex, e.toIndex) in inner;
    }
    top := Bound(rank);
  }

  lemma {:induction false} Bound(rank: map<nat, nat>) returns (top: nat)
    ensures Bounded(rank, top)
    decreases rank.Keys
  {
    if k :| k in rank {
      var rest := map j | j in rank && j != k :: rank[j];
      assert rest.Keys < rank.Keys;
      var t := Bound(rest);
      top := t + rank[k] + 1;
      forall j | j in rank
        ensures rank[j] < top
      {
        if j != k {
          assert j in rest;
        }
      }
    } else {
      top := 0;
    }
  }

  // ── The recursion ───────────────────────────────────────────────

  predicate NoRepeats(s: seq<nat>) {
    forall i, j :: 0 <= i < j < |s| ==> s[i] != s[j]
  }

  method Union(a: seq<nat>, b: seq<nat>) returns (r: seq<nat>)
    requires NoRepeats(a)
    ensures NoRepeats(r) && forall x :: x in r <==> x in a || x in b
  {
    r := a;
    for i := 0 to |b|
      invariant NoRepeats(r) && forall x :: x in r <==> x in a || x in b[..i]
    {
      assert b[..i + 1] == b[..i] + [b[i]];
      if b[i] !in r {
        r := r + [b[i]];
      }
    }
    assert b[..|b|] == b;
  }

  method VisibleRoots(edges: seq<CompiledEdge>, hidden: set<nat>, idx: nat, ghost rank: map<nat, nat>)
    returns (roots: seq<nat>)
    requires Ranked(edges, hidden, rank)
    ensures NoRepeats(roots) && forall r :: r in roots <==> IsRoot(IndexArcs(edges), hidden, r, idx)
    decreases if idx in hidden then rank[idx] + 1 else 0
  {
    if idx !in hidden {
      return [idx];
    }
    ghost var arcs := IndexArcs(edges);
    roots := [];
    for i := 0 to |edges|
      invariant NoRepeats(roots)
      invariant forall r :: r in roots <==> RootAmong(edges[..i], arcs, hidden, r, idx)
    {
      assert edges[..i + 1] == edges[..i] + [edges[i]];
      if edges[i].toIndex == idx {
        var more := VisibleRoots(edges, hidden, edges[i].fromIndex, rank);
        roots := Union(roots, more);
      }
    }
    assert edges[..|edges|] == edges;
    forall r
      ensures RootAmong(edges, arcs, hidden, r, idx) <==> IsRoot(arcs, hidden, r, idx)
    {
      RootAmongIsRoot(edges, hidden, r, idx);
    }
  }

  ghost predicate RootAmong(some: seq<CompiledEdge>, arcs: set<(nat, nat)>, hidden: set<nat>, r: nat, idx: nat) {
    exists e :: e in some && e.toIndex == idx && IsRoot(arcs, hidden, r, e.fromIndex)
  }

  lemma RootAmongIsRoot(edges: seq<CompiledEdge>, hidden: set<nat>, r: nat, idx: nat)
    requires idx in hidden
    ensures RootAmong(edges, IndexArcs(edges), hidden, r, idx) <==> IsRoot(IndexArcs(edges), hidden, r, idx)
  {
    var arcs := IndexArcs(edges);
    if RootAmong(edges, arcs, hidden, r, idx) {
      var e :| e in edges && e.toIndex == idx && IsRoot(arcs, hidden, r, e.fromIndex);
      assert (e.fromIndex, e.toIndex) in arcs;
      RootStep(arcs, hidden, r, e.fromIndex, idx);
    }
    if IsRoot(arcs, hidden, r, idx) {
      var u := RootBack(arcs, hidden, r, idx);
      var e :| e in edges && e.fromIndex == u && e.toIndex == idx;
    }
  }

  method VisibleLeaves(edges: seq<CompiledEdge>, hidden: set<nat>, idx: nat, ghost rank: map<nat, nat>, ghost top: nat)
    returns (leaves: seq<nat>)
    requires Ranked(edges, hidden, rank) && Bounded(rank, top)
    ensures NoRepeats(leaves) && forall l :: l in leaves <==> IsLeaf(IndexArcs(edges), hidden, idx, l)
    decreases if idx in hidden then top - rank[idx] else 0
  {
    if idx !in hidden {
      return [idx];
    }
    ghost var arcs := IndexArcs(edges);
    leaves := [];
    for i := 0 to |edges|
      invariant NoRepeats(leaves)
      invariant forall l :: l in leaves <==> LeafAmong(edges[..i], arcs, hidden, idx, l)
    {
      assert edges[..i + 1] == edges[..i] + [edges[i]];
      if edges[i].fromIndex == idx {
        var more := VisibleLeaves(edges, hidden, edges[i].toIndex, rank, top);
        leaves := Union(leaves, more);
      }
    }
    assert edges[..|edges|] == edges;
    forall l
      ensures LeafAmong(edges, arcs, hidden, idx, l) <==> IsLeaf(arcs, hidden, idx, l)
    {
      LeafAmongIsLeaf(edges, hidden, idx, l);
    }
  }

  ghost predicate LeafAmong(some: seq<CompiledEdge>, arcs: set<(nat, nat)>, hidden: set<nat>, idx: nat, l: nat) {
    exists e :: e in some && e.fromIndex == idx && IsLeaf(arcs, hidden, e.toIndex, l)
  }

  lemma LeafAmongIsLeaf(edges: seq<CompiledEdge>, hidden: set<nat>, idx: nat, l: nat)
    requires idx in hidden
    ensures LeafAmong(edges, IndexArcs(edges), hidden, idx, l) <==> IsLeaf(IndexArcs(edges), hidden, idx, l)
  {
    var arcs := IndexArcs(edges);
    if LeafAmong(edges, arcs, hidden, idx, l) {
      var e :| e in edges && e.fromIndex == idx && IsLeaf(arcs, hidden, e.toIndex, l);
      assert (e.fromIndex, e.toIndex) in arcs;
      LeafStep(arcs, hidden, idx, e.toIndex, l);
    }
    if IsLeaf(arcs, hidden, idx, l) {
      var v := LeafForth(arcs, hidden, idx, l);
      var e :| e in edges && e.fromIndex == idx && e.toIndex == v;
    }
  }

  // ── project ─────────────────────────────────────────────────────

  ghost predicate Draws(e: CompiledEdge, arcs: set<(nat, nat)>, hidden: set<nat>, a: nat, b: nat) {
    DrawnAs(arcs, hidden, e.fromIndex, e.toIndex, a, b)
  }

  ghost predicate DrawnBy(some: seq<CompiledEdge>, arcs: set<(nat, nat)>, hidden: set<nat>, a: nat, b: nat) {
    exists e :: e in some && Draws(e, arcs, hidden, a, b)
  }

  predicate IsQuote(c: char) {
    c == '"' || c == '\'' || c == '\\'
  }

  function TrimQuotes(s: string): string {
    if s != "" && IsQuote(s[0]) then TrimQuotes(s[1..])
    else if s != "" && IsQuote(s[|s| - 1]) then TrimQuotes(s[..|s| - 1])
    else s
  }

  /** The condition, else the label, without quotes around it, if anything is left. */
  function Caption(e: CompiledEdge): Option<string> {
    match if e.condition.Some? then e.condition else e.caption
    case None => None
    case Some(s) => NonEmpty(Some(TrimQuotes(s)))
  }

  /** Some text between quotes, without a quote at either end. */
  ghost predicate Unquotes(s: string, r: string) {
    && Stripped(s, r)
    && (r != "" ==> r[0] != '"' && r[0] != '\'' && r[0] != '\\' && r[|r| - 1] != '"' && r[|r| - 1] != '\'' && r[|r| - 1] != '\\')
  }

  ghost predicate Stripped(s: string, r: string) {
    exists i, j :: Strips(s, i, j, r)
  }

  ghost predicate Strips(s: string, i: int, j: int, r: string) {
    && 0 <= i <= j <= |s| && r == s[i..j]
    && forall k :: 0 <= k < |s| && (k < i || j <= k) ==> s[k] == '"' || s[k] == '\'' || s[k] == '\\'
  }

  lemma {:induction false} TrimUnquotes(s: string)
    ensures Unquotes(s, TrimQuotes(s))
  {
    if s != "" && IsQuote(s[0]) {
      TrimUnquotes(s[1..]);
      StripsFirst(s, TrimQuotes(s[1..]));
    } else if s != "" && IsQuote(s[|s| - 1]) {
      TrimUnquotes(s[..|s| - 1]);
      StripsLast(s, TrimQuotes(s[..|s| - 1]));
    } else {
      assert Strips(s, 0, |s|, s);
    }
  }

  lemma StripsFirst(s: string, r: string)
    requires s != "" && IsQuote(s[0]) && Stripped(s[1..], r)
    ensures Stripped(s, r)
  {
    var i, j :| Strips(s[1..], i, j, r);
    assert forall k :: 1 <= k < |s| ==> s[k] == s[1..][k - 1];
    assert Strips(s, i + 1, j + 1, r);
  }

  lemma StripsLast(s: string, r: string)
    requires s != "" && IsQuote(s[|s| - 1]) && Stripped(s[..|s| - 1], r)
    ensures Stripped(s, r)
  {
    var i, j :| Strips(s[..|s| - 1], i, j, r);
    assert Strips(s, i, j, r);
  }

  /** An edge is labelled with its condition, or else with its own label, without the quotes around; and not at all
      if nothing is left. */
  lemma CaptionIs(e: CompiledEdge)
    ensures match (e.condition, e.caption)
            case (Some(s), _) => exists r :: Unquotes(s, r) && Caption(e) == if r == "" then None else Some(r)
            case (None, Some(s)) => exists r :: Unquotes(s, r) && Caption(e) == if r == "" then None else Some(r)
            case (None, None) => Caption(e) == None
  {
    hide TrimQuotes, Unquotes;
    match (e.condition, e.caption)
    case (Some(s), _) => TrimUnquotes(s);
    case (None, Some(s)) => TrimUnquotes(s);
    case (None, None) =>
  }

  /** The look of a view edge is that of the first plan edge drawn as this pair. */
  ghost predicate LooksLikeFirst(v: ViewEdge, edges: seq<CompiledEdge>, arcs: set<(nat, nat)>, hidden: set<nat>) {
    exists i :: 0 <= i < |edges| && Draws(edges[i], arcs, hidden, v.from, v.to)
      && !DrawnBy(edges[..i], arcs, hidden, v.from, v.to)
      && v.caption == Caption(edges[i]) && v.control == (edges[i].kind == Control)
  }

  ghost predicate NoPairTwice(view: seq<ViewEdge>) {
    forall i, j :: 0 <= i < j < |view| ==> (view[i].from, view[i].to) != (view[j].from, view[j].to)
  }

  /** The nodes that stay, in plan order. */
  function Visible(nodes: seq<CompiledNode>, hidden: set<nat>): seq<ViewNode> {
    if nodes == [] then []
    else
      var rest, n := Visible(nodes[..|nodes| - 1], hidden), nodes[|nodes| - 1];
      if n.index in hidden then rest else rest + [ViewNode(n.index, n.groupId)]
  }

  method VisibleNodes(nodes: seq<CompiledNode>, hidden: set<nat>) returns (r: seq<ViewNode>)
    ensures r == Visible(nodes, hidden)
  {
    r := [];
    for i := 0 to |nodes|
      invariant r == Visible(nodes[..i], hidden)
    {
      assert nodes[..i + 1][..i] == nodes[..i];
      if nodes[i].index in hidden {
        continue;
      }
      r := r + [ViewNode(nodes[i].index, nodes[i].groupId)];
    }
    assert nodes[..|nodes|] == nodes;
  }

  /** No node that stays is lost, and none is added. */
  lemma {:induction false} VisibleAreThose(nodes: seq<CompiledNode>, hidden: set<nat>, v: ViewNode)
    ensures v in Visible(nodes, hidden) <==> exists n :: n in nodes && n.index !in hidden && v == ViewNode(n.index, n.groupId)
  {
    if nodes != [] {
      VisibleAreThose(nodes[..|nodes| - 1], hidden, v);
      assert nodes == nodes[..|nodes| - 1] + [nodes[|nodes| - 1]];
    }
  }

  /** The visible nodes come in plan order. */
  lemma {:induction false} VisibleInOrder(a: seq<CompiledNode>, b: seq<CompiledNode>, hidden: set<nat>)
    ensures Visible(a + b, hidden) == Visible(a, hidden) + Visible(b, hidden)
  {
    if b == [] {
      assert a + b == a;
    } else {
      VisibleInOrder(a, b[..|b| - 1], hidden);
      assert (a + b)[..|a + b| - 1] == a + b[..|b| - 1] && (a + b)[|a + b| - 1] == b[|b| - 1];
    }
  }

  /** Adds the pairs that one plan edge is drawn as, unless they are there already. */
  method DrawEdge(e: CompiledEdge, roots: seq<nat>, leaves: seq<nat>, view0: seq<ViewEdge>) returns (view: seq<ViewEdge>)
    requires NoPairTwice(view0)
    ensures NoPairTwice(view) && view0 <= view
    ensures forall a: nat, b: nat :: (a, b) in ViewArcs(view) <==>
      (a, b) in ViewArcs(view0) || (a != b && a in roots && b in leaves)
    ensures forall i :: |view0| <= i < |view| ==> view[i].caption == Caption(e) && view[i].control == (e.kind == Control)
  {
    view := view0;
    for i := 0 to |roots|
      invariant NoPairTwice(view) && view0 <= view
      invariant forall a: nat, b: nat :: (a, b) in ViewArcs(view) <==>
        (a, b) in ViewArcs(view0) || (a != b && a in roots[..i] && b in leaves)
      invariant forall k :: |view0| <= k < |view| ==> view[k].caption == Caption(e) && view[k].control == (e.kind == Control)
    {
      assert roots[..i + 1] == roots[..i] + [roots[i]];
      ghost var row := view;
      for j := 0 to |leaves|
        invariant NoPairTwice(view) && view0 <= view
        invariant forall a: nat, b: nat :: (a, b) in ViewArcs(view) <==>
          (a, b) in ViewArcs(row) || (a != b && a == roots[i] && b in leaves[..j])
        invariant forall k :: |view0| <= k < |view| ==> view[k].caption == Caption(e) && view[k].control == (e.kind == Control)
      {
        assert leaves[..j + 1] == leaves[..j] + [leaves[j]];
        if roots[i] != leaves[j] && !(exists v :: v in view && v.from == roots[i] && v.to == leaves[j]) {
          AddPair(view, ViewEdge(roots[i], leaves[j], Caption(e), e.kind == Control));
          view := view + [ViewEdge(roots[i], leaves[j], Caption(e), e.kind == Control)];
        }
      }
      assert leaves[..|leaves|] == leaves;
    }
    assert roots[..|roots|] == roots;
  }

  lemma AddPair(view: seq<ViewEdge>, v: ViewEdge)
    ensures ViewArcs(view + [v]) == ViewArcs(view) + {(v.from, v.to)}
    ensures NoPairTwice(view) && (v.from, v.to) !in ViewArcs(view) ==> NoPairTwice(view + [v])
  {
  }

  method Project(nodes: seq<CompiledNode>, edges: seq<CompiledEdge>, hidden: set<nat>)
    returns (shown: seq<ViewNode>, view: seq<ViewEdge>)
    requires HiddenAcyclic(edges, hidden)
    ensures shown == Visible(nodes, hidden)
    ensures NoPairTwice(view)
    ensures forall a: nat, b: nat :: (a, b) in ViewArcs(view) <==> Bridged(IndexArcs(edges), hidden, a, b)
    ensures forall v :: v in view ==> LooksLikeFirst(v, edges, IndexArcs(edges), hidden)
  {
    ghost var rank, top := RankHidden(edges, hidden);
    ghost var arcs := IndexArcs(edges);
    shown := VisibleNodes(nodes, hidden);
    view := [];
    for i := 0 to |edges|
      invariant NoPairTwice(view)
      invariant forall a: nat, b: nat :: (a, b) in ViewArcs(view) <==> DrawnBy(edges[..i], arcs, hidden, a, b)
      invariant forall v :: v in view ==> LooksLikeFirst(v, edges, arcs, hidden)
    {
      assert edges[..i + 1] == edges[..i] + [edges[i]];
      var roots := VisibleRoots(edges, hidden, edges[i].fromIndex, rank);
      var leaves := VisibleLeaves(edges, hidden, edges[i].toIndex, rank, top);
      ghost var before := view;
      view := DrawEdge(edges[i], roots, leaves, view);
      NewEdgesLookRight(before, view, edges, i, arcs, hidden);
    }
    assert edges[..|edges|] == edges;
    forall a: nat, b: nat
      ensures DrawnBy(edges, arcs, hidden, a, b) <==> Bridged(arcs, hidden, a, b)
    {
      DrawnByIsBridged(edges, hidden, a, b);
    }
  }

  lemma NewEdgesLookRight(before: seq<ViewEdge>, view: seq<ViewEdge>, edges: seq<CompiledEdge>, i: nat,
                          arcs: set<(nat, nat)>, hidden: set<nat>)
    requires i < |edges| && before <= view && NoPairTwice(view)
    requires forall a: nat, b: nat :: (a, b) in ViewArcs(before) <==> DrawnBy(edges[..i], arcs, hidden, a, b)
    requires forall a: nat, b: nat :: (a, b) in ViewArcs(view) <==> (a, b) in ViewArcs(before) || Draws(edges[i], arcs, hidden, a, b)
    requires forall k :: |before| <= k < |view| ==>
      view[k].caption == Caption(edges[i]) && view[k].control == (edges[i].kind == Control)
    requires forall v :: v in before ==> LooksLikeFirst(v, edges, arcs, hidden)
    ensures forall v :: v in view ==> LooksLikeFirst(v, edges, arcs, hidden)
  {
    forall v | v in view
      ensures LooksLikeFirst(v, edges, arcs, hidden)
    {
      var k :| 0 <= k < |view| && view[k] == v;
      if k < |before| {
        assert v in before;
      } else {
        assert (v.from, v.to) in ViewArcs(view);
        NewPairIsNew(before, view, k);
      }
    }
  }

  lemma NewPairIsNew(before: seq<ViewEdge>, view: seq<ViewEdge>, k: nat)
    requires before <= view && NoPairTwice(view) && |before| <= k < |view|
    ensures (view[k].from, view[k].to) !in ViewArcs(before)
  {
    forall j | 0 <= j < |before|
      ensures (before[j].from, before[j].to) != (view[k].from, view[k].to)
    {
      assert view[j] == before[j];
    }
  }

  lemma DrawnByIsBridged(edges: seq<CompiledEdge>, hidden: set<nat>, a: nat, b: nat)
    ensures DrawnBy(edges, IndexArcs(edges), hidden, a, b) <==> Bridged(IndexArcs(edges), hidden, a, b)
  {
    var arcs := IndexArcs(edges);
    DrawnIffBridged(arcs, hidden, a, b);
    if exists u, v :: (u, v) in arcs && DrawnAs(arcs, hidden, u, v, a, b) {
      var u, v :| (u, v) in arcs && DrawnAs(arcs, hidden, u, v, a, b);
      var e :| e in edges && e.fromIndex == u && e.toIndex == v;
      assert Draws(e, arcs, hidden, a, b);
    }
    if DrawnBy(edges, arcs, hidden, a, b) {
      var e :| e in edges && Draws(e, arcs, hidden, a, b);
      assert (e.fromIndex, e.toIndex) in arcs;
    }
  }

  // ── Reachability is kept ────────────────────────────────────────

  /** A walk between visible nodes is a chain of bridges. */
  lemma {:induction false} WalkOfBridges(arcs: set<(nat, nat)>, hidden: set<nat>, view: set<(nat, nat)>, p: seq<nat>)
    requires forall a: nat, b: nat :: Bridged(arcs, hidden, a, b) ==> (a, b) in view
    requires Walk(arcs, p) && p[0] !in hidden && p[|p| - 1] !in hidden
    ensures Reaches(view, p[0], p[|p| - 1])
    decreases |p|
  {
    ReachesSelf(view, p[0]);
    if |p| > 1 {
      var k := NextVisible(p, hidden);
      assert forall i :: 0 <= i < |p| - k ==> p[k..][i] == p[k + i];
      WalkOfBridges(arcs, hidden, view, p[k..]);
      if p[0] != p[k] {
        assert BridgeWalk(arcs, hidden, p[..k + 1], p[0], p[k]);
        ReachesArc(view, p[0], p[k]);
        ReachesTrans(view, p[0], p[k], p[|p| - 1]);
      }
    }
  }

  lemma NextVisible(p: seq<nat>, hidden: set<nat>) returns (k: nat)
    requires |p| > 1 && p[|p| - 1] !in hidden
    ensures 0 < k < |p| && p[k] !in hidden && forall i :: 0 < i < k ==> p[i] in hidden
  {
    k := 1;
    while p[k] in hidden
      invariant 0 < k < |p| && forall i :: 0 < i < k ==> p[i] in hidden
      decreases |p| - k
    {
      k := k + 1;
    }
  }

  /** Hiding nodes changes nothing about who reaches whom among the visible ones. */
  lemma ProjectKeepsReachability(edges: seq<CompiledEdge>, hidden: set<nat>, view: seq<ViewEdge>, a: nat, b: nat)
    requires forall x: nat, y: nat :: (x, y) in ViewArcs(view) <==> Bridged(IndexArcs(edges), hidden, x, y)
    requires a !in hidden && b !in hidden
    ensures Reaches(ViewArcs(view), a, b) <==> Reaches(IndexArcs(edges), a, b)
  {
    var arcs := IndexArcs(edges);
    if Reaches(arcs, a, b) {
      var p :| WalkFromTo(arcs, p, a, b);
      WalkOfBridges(arcs, hidden, ViewArcs(view), p);
    }
    if Reaches(ViewArcs(view), a, b) {
      var p :| WalkFromTo(ViewArcs(view), p, a, b);
      BridgesAreWalks(arcs, hidden, ViewArcs(view), p);
    }
  }

  lemma {:induction false} BridgesAreWalks(arcs: set<(nat, nat)>, hidden: set<nat>, view: set<(nat, nat)>, p: seq<nat>)
    requires forall x: nat, y: nat :: (x, y) in view ==> Bridged(arcs, hidden, x, y)
    requires Walk(view, p)
    ensures Reaches(arcs, p[0], p[|p| - 1])
  {
    ReachesSelf(arcs, p[0]);
    if |p| > 1 {
      assert (p[0], p[1]) in view;
      var q :| BridgeWalk(arcs, hidden, q, p[0], p[1]);
      BridgesAreWalks(arcs, hidden, view, p[1..]);
      assert Reaches(arcs, p[0], p[1]);
      ReachesTrans(arcs, p[0], p[1], p[|p| - 1]);
    }
  }

  // ── collapse ────────────────────────────────────────────────────

  datatype Box = GroupBox(index: nat, title: string, steps: nat) | NodeBox(index: nat)

  /** Group ids are 32-bit numbers. */
  predicate GroupIdsFit(nodes: seq<ViewNode>) {
    forall n :: n in nodes && n.groupId.Some? ==> n.groupId.value <= U32_MAX
  }

  function GroupOf(nodes: seq<ViewNode>, idx: nat): (r: Option<nat>)
    ensures GroupIdsFit(nodes) && r.Some? ==> r.value <= U32_MAX
    ensures r.Some? ==> exists n :: n in nodes && n.index == idx && n.groupId == r
  {
    if nodes == [] then None
    else if nodes[0].index == idx then nodes[0].groupId
    else GroupOf(nodes[1..], idx)
  }

  /** The summary vertex of a node: its group, counted down from the largest index, or itself. */
  function Key(nodes: seq<ViewNode>, idx: nat): nat
    requires GroupIdsFit(nodes)
  {
    match GroupOf(nodes, idx)
    case Some(g) => U32_MAX - g
    case None => idx
  }

  ghost predicate SameClass(nodes: seq<ViewNode>, u: nat, v: nat) {
    u == v || (GroupOf(nodes, u).Some? && GroupOf(nodes, u) == GroupOf(nodes, v))
  }

  /** Indices and group numbers leave each other room in 32 bits. */
  ghost predicate RoomFor(nodes: seq<ViewNode>, groups: nat, idx: nat) {
    idx + groups <= U32_MAX && (GroupOf(nodes, idx).Some? ==> GroupOf(nodes, idx).value < groups)
  }

  /** Two nodes get the same key exactly if they are in one group or are one node. */
  lemma KeysNameClasses(nodes: seq<ViewNode>, groups: nat, u: nat, v: nat)
    requires GroupIdsFit(nodes) && RoomFor(nodes, groups, u) && RoomFor(nodes, groups, v)
    ensures Key(nodes, u) == Key(nodes, v) <==> SameClass(nodes, u, v)
  {
  }

  ghost predicate CollapsesTo(nodes: seq<ViewNode>, e: ViewEdge, a: nat, b: nat)
    requires GroupIdsFit(nodes)
  {
    a != b && Key(nodes, e.from) == a && Key(nodes, e.to) == b
  }

  /** The look of a summary edge is that of the first view edge between the two classes. */
  ghost predicate LooksLikeFirstOf(s: ViewEdge, nodes: seq<ViewNode>, edges: seq<ViewEdge>)
    requires GroupIdsFit(nodes)
  {
    exists i :: 0 <= i < |edges| && CollapsesTo(nodes, edges[i], s.from, s.to)
      && (forall j :: 0 <= j < i ==> !CollapsesTo(nodes, edges[j], s.from, s.to))
      && s.caption == edges[i].caption && s.control == edges[i].control
  }

  ghost predicate ClassesJoined(nodes: seq<ViewNode>, edges: seq<ViewEdge>, a: nat, b: nat)
    requires GroupIdsFit(nodes)
  {
    exists i :: 0 <= i < |edges| && CollapsesTo(nodes, edges[i], a, b)
  }

  function Members(nodes: seq<ViewNode>, g: nat): seq<nat> {
    if nodes == [] then []
    else
      var rest, n := Members(nodes[..|nodes| - 1], g), nodes[|nodes| - 1];
      if n.groupId == Some(g) then rest + [n.index] else rest
  }

  function Ungrouped(nodes: seq<ViewNode>): seq<nat> {
    if nodes == [] then []
    else
      var rest, n := Ungrouped(nodes[..|nodes| - 1]), nodes[|nodes| - 1];
      if n.groupId.None? then rest + [n.index] else rest
  }

  /** The members of a group are its nodes, in order; the rest stand alone. */
  lemma {:induction false} MembersAre(nodes: seq<ViewNode>, g: nat, idx: nat)
    ensures idx in Members(nodes, g) <==> ViewNode(idx, Some(g)) in nodes
    ensures idx in Ungrouped(nodes) <==> ViewNode(idx, None) in nodes
  {
    if nodes != [] {
      MembersAre(nodes[..|nodes| - 1], g, idx);
      assert nodes == nodes[..|nodes| - 1] + [nodes[|nodes| - 1]];
    }
  }

  method CollapseEdges(nodes: seq<ViewNode>, edges: seq<ViewEdge>) returns (summary: seq<ViewEdge>)
    requires GroupIdsFit(nodes)
    ensures NoPairTwice(summary)
    ensures forall a: nat, b: nat :: (a, b) in ViewArcs(summary) <==> ClassesJoined(nodes, edges, a, b)
    ensures forall s :: s in summary ==> LooksLikeFirstOf(s, nodes, edges)
  {
    hide ClassesJoined, LooksLikeFirstOf, NoPairTwice, CollapsesTo;
    summary := [];
    NothingJoined(nodes, edges[..0]);
    for i := 0 to |edges|
      invariant NoPairTwice(summary)
      invariant forall a: nat, b: nat :: (a, b) in ViewArcs(summary) <==> ClassesJoined(nodes, edges[..i], a, b)
      invariant forall s :: s in summary ==> LooksLikeFirstOf(s, nodes, edges)
    {
      var e := edges[i];
      var from, to := Key(nodes, e.from), Key(nodes, e.to);
      JoinedNext(nodes, edges, i);
      JoinedHere(nodes, edges, i);
      if from != to && !(exists s :: s in summary && s.from == from && s.to == to) {
        var s := ViewEdge(from, to, e.caption, e.control);
        AddPair(summary, s);
        FirstOf(nodes, edges, i);
        summary := summary + [s];
      }
    }
    assert edges[..|edges|] == edges;
  }

  lemma NothingJoined(nodes: seq<ViewNode>, edges: seq<ViewEdge>)
    requires GroupIdsFit(nodes) && edges == []
    ensures NoPairTwice([]) && forall a: nat, b: nat :: !ClassesJoined(nodes, edges, a, b)
  {
  }

  lemma JoinedHere(nodes: seq<ViewNode>, edges: seq<ViewEdge>, i: nat)
    requires GroupIdsFit(nodes) && i < |edges|
    ensures var from, to := Key(nodes, edges[i].from), Key(nodes, edges[i].to);
      forall a: nat, b: nat :: CollapsesTo(nodes, edges[i], a, b) <==> from != to && a == from && b == to
  {
  }

  lemma FirstOf(nodes: seq<ViewNode>, edges: seq<ViewEdge>, i: nat)
    requires GroupIdsFit(nodes) && i < |edges|
    requires Key(nodes, edges[i].from) != Key(nodes, edges[i].to)
    requires !ClassesJoined(nodes, edges[..i], Key(nodes, edges[i].from), Key(nodes, edges[i].to))
    ensures LooksLikeFirstOf(ViewEdge(Key(nodes, edges[i].from), Key(nodes, edges[i].to), edges[i].caption, edges[i].control), nodes, edges)
  {
    assert forall j :: 0 <= j < i ==> edges[..i][j] == edges[j];
  }

  lemma JoinedNext(nodes: seq<ViewNode>, edges: seq<ViewEdge>, i: nat)
    requires GroupIdsFit(nodes) && i < |edges|
    ensures forall a: nat, b: nat :: ClassesJoined(nodes, edges[..i + 1], a, b) <==>
      ClassesJoined(nodes, edges[..i], a, b) || CollapsesTo(nodes, edges[i], a, b)
  {
    var p, q := edges[..i], edges[..i + 1];
    forall a: nat, b: nat
      ensures ClassesJoined(nodes, q, a, b) <==> ClassesJoined(nodes, p, a, b) || CollapsesTo(nodes, edges[i], a, b)
    {
      if ClassesJoined(nodes, p, a, b) {
        var j :| 0 <= j < |p| && CollapsesTo(nodes, p[j], a, b);
        assert q[j] == p[j];
      }
      if ClassesJoined(nodes, q, a, b) {
        var j :| 0 <= j < |q| && CollapsesTo(nodes, q[j], a, b);
        assert j < i ==> p[j] == q[j];
      }
      assert q[i] == edges[i];
    }
  }

  /** One box per group with its number of members, then the ungrouped nodes. */
  method CollapseNodes(nodes: seq<ViewNode>, groups: seq<string>) returns (boxes: seq<Box>)
    requires |groups| <= U32_MAX
    ensures |boxes| == |groups| + |Ungrouped(nodes)|
    ensures forall g :: 0 <= g < |groups| ==> boxes[g] == GroupBox(U32_MAX - g, groups[g], |Members(nodes, g)|)
    ensures forall k :: 0 <= k < |Ungrouped(nodes)| ==> boxes[|groups| + k] == NodeBox(Ungrouped(nodes)[k])
  {
    var members := seq(|groups|, g => []);
    for i := 0 to |nodes|
      invariant |members| == |groups| && forall g :: 0 <= g < |groups| ==> members[g] == Members(nodes[..i], g)
    {
      assert nodes[..i + 1][..i] == nodes[..i];
      var n := nodes[i];
      if n.groupId.Some? && n.groupId.value < |members| {
        members := members[n.groupId.value := members[n.groupId.value] + [n.index]];
      }
    }
    assert nodes[..|nodes|] == nodes;
    boxes := [];
    for g := 0 to |groups|
      invariant |boxes| == g
      invariant forall k :: 0 <= k < g ==> boxes[k] == GroupBox(U32_MAX - k, groups[k], |Members(nodes, k)|)
    {
      boxes := boxes + [GroupBox(U32_MAX - g, groups[g], |members[g]|)];
    }
    var groupBoxes := boxes;
    for i := 0 to |nodes|
      invariant |boxes| == |groups| + |Ungrouped(nodes[..i])| && groupBoxes <= boxes
      invariant forall k :: 0 <= k < |Ungrouped(nodes[..i])| ==> boxes[|groups| + k] == NodeBox(Ungrouped(nodes[..i])[k])
    {
      assert nodes[..i + 1][..i] == nodes[..i];
      if nodes[i].groupId.None? {
        boxes := boxes + [NodeBox(nodes[i].index)];
      }
    }
    assert nodes[..|nodes|] == nodes;
  }

  /** Without groups the summary is the view itself. */
  method Collapse(nodes: seq<ViewNode>, edges: seq<ViewEdge>, groups: seq<string>)
    returns (boxes: seq<Box>, summary: seq<ViewEdge>)
    requires GroupIdsFit(nodes) && |groups| <= U32_MAX
    ensures groups == [] ==> summary == edges && boxes == seq(|nodes|, i requires 0 <= i < |nodes| => NodeBox(nodes[i].index))
    ensures groups != [] ==> |boxes| == |groups| + |Ungrouped(nodes)|
    ensures forall g :: 0 <= g < |groups| ==> boxes[g] == GroupBox(U32_MAX - g, groups[g], |Members(nodes, g)|)
    ensures groups != [] ==> forall k :: 0 <= k < |Ungrouped(nodes)| ==> boxes[|groups| + k] == NodeBox(Ungrouped(nodes)[k])
    ensures groups != [] ==>
      && NoPairTwice(summary)
      && (forall a: nat, b: nat :: (a, b) in ViewArcs(summary) <==> ClassesJoined(nodes, edges, a, b))
      && (forall s :: s in summary ==> LooksLikeFirstOf(s, nodes, edges))
  {
    if groups == [] {
      boxes, summary := seq(|nodes|, i requires 0 <= i < |nodes| => NodeBox(nodes[i].index)), edges;
    } else {
      boxes := CollapseNodes(nodes, groups);
      summary := CollapseEdges(nodes, edges);
    }
  }

  ghost function TotalSteps(nodes: seq<ViewNode>, groups: nat): nat {
    if groups == 0 then 0 else TotalSteps(nodes, groups - 1) + |Members(nodes, groups - 1)|
  }

  /** Every visible node is a step of exactly one group or stands alone. */
  lemma {:induction false} StepsAddUp(nodes: seq<ViewNode>, groups: nat)
    requires forall n :: n in nodes && n.groupId.Some? ==> n.groupId.value < groups
    ensures TotalSteps(nodes, groups) + |Ungrouped(nodes)| == |nodes|
  {
    if nodes == [] {
      NoSteps(groups);
    } else {
      var rest, n := nodes[..|nodes| - 1], nodes[|nodes| - 1];
      StepsAddUp(rest, groups);
      OneMoreStep(nodes, groups);
    }
  }

  lemma {:induction false} NoSteps(groups: nat)
    ensures TotalSteps([], groups) == 0
  {
    if groups > 0 {
      NoSteps(groups - 1);
    }
  }

  lemma {:induction false} OneMoreStep(nodes: seq<ViewNode>, groups: nat)
    requires nodes != []
    ensures var g := nodes[|nodes| - 1].groupId;
      TotalSteps(nodes, groups) == TotalSteps(nodes[..|nodes| - 1], groups) + if g.Some? && g.value < groups then 1 else 0
  {
    if groups > 0 {
      OneMoreStep(nodes, groups - 1);
    }
  }

  /** What reaches what in the view does so in the summary, class by class. */
  lemma CollapseKeepsReachability(nodes: seq<ViewNode>, edges: seq<ViewEdge>, summary: seq<ViewEdge>, u: nat, v: nat)
    requires GroupIdsFit(nodes)
    requires forall a: nat, b: nat :: (a, b) in ViewArcs(summary) <==> ClassesJoined(nodes, edges, a, b)
    requires Reaches(ViewArcs(edges), u, v)
    ensures Reaches(ViewArcs(summary), Key(nodes, u), Key(nodes, v))
  {
    var f: nat -> nat := (k: nat) => if GroupIdsFit(nodes) then Key(nodes, k) else k;
    forall a: nat, b: nat | (a, b) in ViewArcs(edges)
      ensures f(a) == f(b) || (f(a), f(b)) in ViewArcs(summary)
    {
      var i :| 0 <= i < |edges| && edges[i].from == a && edges[i].to == b;
      assert f(a) != f(b) ==> CollapsesTo(nodes, edges[i], f(a), f(b));
    }
    ReachesMaps(ViewArcs(edges), ViewArcs(summary), f, u, v);
  }

  // ── The whole view ──────────────────────────────────────────────

  ghost predicate GroupsFit(c: CompiledPlan) {
    |c.groups| <= U32_MAX && forall n :: n in c.nodes && n.groupId.Some? ==> n.groupId.value < |c.groups|
  }

  lemma {:induction false} VisibleGroupsFit(nodes: seq<CompiledNode>, hidden: set<nat>, groups: nat)
    requires groups <= U32_MAX && forall n :: n in nodes && n.groupId.Some? ==> n.groupId.value < groups
    ensures GroupIdsFit(Visible(nodes, hidden))
    ensures forall v :: v in Visible(nodes, hidden) && v.groupId.Some? ==> v.groupId.value < groups
  {
    if nodes != [] {
      VisibleGroupsFit(nodes[..|nodes| - 1], hidden, groups);
    }
  }

  /** Where a node is found in the view: at its group's box in the summary, else at itself. */
  ghost function Place(c: CompiledPlan, hidden: set<nat>, summarized: bool, idx: nat): nat
    requires GroupsFit(c)
  {
    VisibleGroupsFit(c.nodes, hidden, |c.groups|);
    if summarized && c.groups != [] then Key(Visible(c.nodes, hidden), idx) else idx
  }

  /** From the plan to the boxes: every visible node is in a box, the boxes of groups count theirs, and
      whatever reaches what in the plan does so in the view. */
  method BuildView(c: CompiledPlan, hidden: set<nat>, summarize: bool) returns (boxes: seq<Box>, drawn: seq<ViewEdge>)
    requires HiddenAcyclic(c.edges, hidden) && GroupsFit(c)
    ensures var shown := Visible(c.nodes, hidden);
      && (!summarize || c.groups == [] ==> boxes == seq(|shown|, i requires 0 <= i < |shown| => NodeBox(shown[i].index)))
      && (summarize && c.groups != [] ==>
            && |boxes| == |c.groups| + |Ungrouped(shown)|
            && (forall g :: 0 <= g < |c.groups| ==> boxes[g] == GroupBox(U32_MAX - g, c.groups[g], |Members(shown, g)|))
            && TotalSteps(shown, |c.groups|) + |Ungrouped(shown)| == |shown|)
    ensures forall a: nat, b: nat :: a !in hidden && b !in hidden && Reaches(IndexArcs(c.edges), a, b) ==>
      Reaches(ViewArcs(drawn), Place(c, hidden, summarize, a), Place(c, hidden, summarize, b))
  {
    hide Reaches, Key, Members, Ungrouped, TotalSteps, Bridged, ClassesJoined, LooksLikeFirst, LooksLikeFirstOf, NoPairTwice;
    VisibleGroupsFit(c.nodes, hidden, |c.groups|);
    var shown, view := Project(c.nodes, c.edges, hidden);
    drawn := view;
    if summarize {
      boxes, drawn := Collapse(shown, view, c.groups);
    } else {
      boxes := seq(|shown|, i requires 0 <= i < |shown| => NodeBox(shown[i].index));
    }
    if c.groups != [] {
      StepsAddUp(shown, |c.groups|);
    }
    forall a: nat, b: nat | a !in hidden && b !in hidden && Reaches(IndexArcs(c.edges), a, b)
      ensures Reaches(ViewArcs(drawn), Place(c, hidden, summarize, a), Place(c, hidden, summarize, b))
    {
      ProjectKeepsReachability(c.edges, hidden, view, a, b);
      if summarize && c.groups != [] {
        CollapseKeepsReachability(shown, view, drawn, a, b);
      }
    }
  }
}
