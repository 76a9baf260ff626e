/** Execution plans and Kahn's topological sort.

    A node id is only compared, hashed and copied, so a number stands for the
    id string. Of a node's arguments the keys are kept, the texts are not. */
module Plan {
  import opened Graphs
  import opened Wrappers

  type Id = nat

  datatype Opcode =
    | Input | Call | Calc | Decide | Switch | Act | Parallel | Loop | Wait | Merge | Error

  datatype EdgeKind = Data | Control

  datatype Node = Node(id: Id, op: Opcode, args: seq<string>, branchId: Option<nat>, group: Option<string>)

  datatype Edge = Edge(
    from: Id, to: Id, condition: Option<string>, priority: Option<int>, caption: Option<string>, kind: EdgeKind)

  function NewEdge(from: Id, to: Id, condition: Option<string>, kind: EdgeKind): Edge {
    Edge(from, to, condition, None, None, kind)
  }

  function Ids(nodes: seq<Node>): set<Id> {
    set n | n in nodes :: n.id
  }

  ghost predicate DistinctIds(nodes: seq<Node>) {
    forall i, j :: 0 <= i < j < |nodes| ==> nodes[i].id != nodes[j].id
  }

  ghost predicate FirstWithId(nodes: seq<Node>, id: Id, i: int) {
    0 <= i < |nodes| && nodes[i].id == id && forall j :: 0 <= j < i ==> nodes[j].id != id
  }

  function GetNode(nodes: seq<Node>, id: Id): (r: Option<Node>)
    ensures r.Some? <==> id in Ids(nodes)
    ensures r.Some? ==> r.value in nodes && r.value.id == id
    ensures r.Some? ==> exists i :: FirstWithId(nodes, id, i) && nodes[i] == r.value
  {
    if nodes == [] then None
    else if nodes[0].id == id then Some(nodes[0])
    else
      assert forall n :: n in nodes <==> n == nodes[0] || n in nodes[1..];
      assert forall i :: FirstWithId(nodes[1..], id, i) ==> FirstWithId(nodes, id, i + 1) && nodes[i + 1] == nodes[1..][i];
      GetNode(nodes[1..], id)
  }

  function EdgesFrom(edges: seq<Edge>, id: Id): (r: seq<Edge>)
    ensures forall e :: e in r <==> e in edges && e.from == id
  {
    if edges == [] then []
    else
      var rest := EdgesFrom(edges[..|edges| - 1], id);
      var last := edges[|edges| - 1];
      assert edges == edges[..|edges| - 1] + [last];
      if last.from == id then rest + [last] else rest
  }

  /** Order and multiplicity are those of the plan: each next edge is kept exactly if it leaves the node. */
  lemma EdgesFromNext(edges: seq<Edge>, e: Edge, id: Id)
    ensures EdgesFrom([], id) == []
    ensures EdgesFrom(edges + [e], id) == EdgesFrom(edges, id) + if e.from == id then [e] else []
  {
    assert (edges + [e])[..|edges|] == edges;
  }

  lemma {:induction false} EdgesFromInOrder(edges: seq<Edge>, more: seq<Edge>, id: Id)
    ensures EdgesFrom(edges + more, id) == EdgesFrom(edges, id) + EdgesFrom(more, id)
  {
    hide EdgesFrom;
    if more == [] {
      EdgesFromNext(edges, Edge(0, 0, None, None, None, Data), id);
      assert edges + more == edges && EdgesFrom(edges, id) + [] == EdgesFrom(edges, id);
    } else {
      var front, last := more[..|more| - 1], more[|more| - 1];
      EdgesFromInOrder(edges, front, id);
      EdgesFromNext(edges + front, last, id);
      EdgesFromNext(front, last, id);
      assert edges + more == (edges + front) + [last] && more == front + [last];
    }
  }

  ghost function Arcs(edges: seq<Edge>): set<(Id, Id)> {
    set e | e in edges :: (e.from, e.to)
  }

  /** Distinct ids, and no edge dangles. */
  ghost predicate WellReferenced(nodes: seq<Node>, edges: seq<Edge>) {
    DistinctIds(nodes) && forall e :: e in edges ==> e.from in Ids(nodes) && e.to in Ids(nodes)
  }

  // ── What the sort promises ──────────────────────────────────────

  /** The arcs that the in-degree table sees: those that enter a known node. */
  ghost function KnownArcs(nodes: seq<Node>, edges: seq<Edge>): set<(Id, Id)> {
    set e | e in edges && e.to in Ids(nodes) :: (e.from, e.to)
  }

  /** An edge from an unknown node into a known one is counted and never discounted. */
  ghost predicate SourcesKnown(nodes: seq<Node>, edges: seq<Edge>) {
    forall e :: e in edges && e.to in Ids(nodes) ==> e.from in Ids(nodes)
  }

  ghost predicate Sortable(nodes: seq<Node>, edges: seq<Edge>) {
    SourcesKnown(nodes, edges) && Acyclic(KnownArcs(nodes, edges))
  }

  /** Every edge into a known node leaves a node that stands earlier in the order. */
  ghost predicate Forward(order: seq<Node>, edges: seq<Edge>) {
    forall j, e :: 0 <= j < |order| && e in edges && e.to == order[j].id ==> e.from in Ids(order[..j])
  }

  // ── Counting in-degrees ─────────────────────────────────────────

  /** How many edges enter `v` from outside `done`. */
  ghost function Pending(edges: seq<Edge>, v: Id, done: set<Id>): nat {
    if edges == [] then 0
    else
      var e := edges[|edges| - 1];
      Pending(edges[..|edges| - 1], v, done) + if e.to == v && e.from !in done then 1 else 0
  }

  lemma PendingNext(edges: seq<Edge>, i: nat, v: Id, done: set<Id>)
    requires i < |edges|
    ensures Pending(edges[..i + 1], v, done)
         == Pending(edges[..i], v, done) + if edges[i].to == v && edges[i].from !in done then 1 else 0
  {
    assert edges[..i + 1][..i] == edges[..i];
  }

  lemma {:induction false} PendingZero(edges: seq<Edge>, v: Id, done: set<Id>)
    ensures Pending(edges, v, done) == 0 <==> forall e :: e in edges && e.to == v ==> e.from in done
  {
    if edges != [] {
      PendingZero(edges[..|edges| - 1], v, done);
      assert edges == edges[..|edges| - 1] + [edges[|edges| - 1]];
    }
  }

  /** Finishing `u` discharges exactly the edges that leave `u`. */
  lemma {:induction false} PendingFinish(edges: seq<Edge>, v: Id, done: set<Id>, u: Id)
    requires u !in done
    ensures Pending(edges, v, done) == Pending(edges, v, done + {u}) + Pending(EdgesFrom(edges, u), v, {})
  {
    if edges != [] {
      var rest, e := edges[..|edges| - 1], edges[|edges| - 1];
      PendingFinish(rest, v, done, u);
      if e.from == u {
        assert EdgesFrom(edges, u)[..|EdgesFrom(edges, u)| - 1] == EdgesFrom(rest, u);
      }
    }
  }

  // ── Permutations without repetition ─────────────────────────────

  lemma {:induction false} DistinctCount(nodes: seq<Node>)
    requires DistinctIds(nodes)
    ensures |Ids(nodes)| == |nodes|
  {
    if nodes != [] {
      var rest, n := nodes[..|nodes| - 1], nodes[|nodes| - 1];
      DistinctCount(rest);
      assert nodes == rest + [n];
      assert Ids(nodes) == Ids(rest) + {n.id};
      assert n.id !in Ids(rest);
    } else {
      assert Ids(nodes) == {};
    }
  }

  lemma {:induction false} DistinctOnce(nodes: seq<Node>, n: Node)
    requires DistinctIds(nodes)
    ensures multiset(nodes)[n] == if n in nodes then 1 else 0
  {
    if nodes != [] {
      var rest, last := nodes[..|nodes| - 1], nodes[|nodes| - 1];
      assert nodes == rest + [last];
      DistinctOnce(rest, n);
      assert multiset(nodes) == multiset(rest) + multiset{last};
    }
  }

  /** Nodes of `all`, none twice and all of them, are `all` in another order. */
  lemma SameLengthIsPermutation(order: seq<Node>, all: seq<Node>)
    requires DistinctIds(order) && DistinctIds(all) && forall n :: n in order ==> n in all
    ensures |order| <= |all|
    ensures |order| == |all| ==> multiset(order) == multiset(all) && Ids(order) == Ids(all)
  {
    DistinctCount(order);
    DistinctCount(all);
    assert Ids(order) <= Ids(all);
    CardinalitySubset(Ids(order), Ids(all));
    if |order| == |all| {
      forall n | n in all
        ensures n in order
      {
        assert n.id in Ids(order);
        var m :| m in order && m.id == n.id;
        assert m in all;
      }
      forall n: Node
        ensures multiset(order)[n] == multiset(all)[n]
      {
        DistinctOnce(order, n);
        DistinctOnce(all, n);
      }
    }
  }

  lemma CardinalitySubset(a: set<Id>, b: set<Id>)
    requires a <= b
    ensures |a| <= |b| && (|a| == |b| ==> a == b)
  {
    assert b == a + (b - a);
    assert |b| == |a| + |b - a|;
  }

  // ── Kahn's algorithm ────────────────────────────────────────────

  ghost predicate DegreesMatch(inDegree: map<Id, nat>, nodes: seq<Node>, edges: seq<Edge>, done: set<Id>) {
    inDegree.Keys == Ids(nodes) && forall v :: v in inDegree ==> inDegree[v] == Pending(edges, v, done)
  }

  method InDegrees(nodes: seq<Node>, edges: seq<Edge>) returns (inDegree: map<Id, nat>)
    ensures DegreesMatch(inDegree, nodes, edges, {})
  {
    inDegree := map id | id in Ids(nodes) :: 0;
    for i := 0 to |edges|
      invariant DegreesMatch(inDegree, nodes, edges[..i], {})
    {
      forall v: Id {
        PendingNext(edges, i, v, {});
      }
      if edges[i].to in inDegree {
        inDegree := inDegree[edges[i].to := inDegree[edges[i].to] + 1];
      }
    }
    assert edges[..|edges|] == edges;
  }

  /** The work list at the start: the nodes of in-degree zero, in plan order. */
  method Roots(nodes: seq<Node>, inDegree: map<Id, nat>) returns (queue: seq<Node>)
    requires DistinctIds(nodes) && inDegree.Keys == Ids(nodes)
    ensures DistinctIds(queue)
    ensures forall n :: n in queue <==> n in nodes && inDegree[n.id] == 0
  {
    queue := [];
    for i := 0 to |nodes|
      invariant forall n :: n in queue <==> n in nodes[..i] && inDegree[n.id] == 0
      invariant DistinctIds(queue)
    {
      if inDegree[nodes[i].id] == 0 {
        queue := queue + [nodes[i]];
      }
    }
  }

  lemma AppendDistinct(s: seq<Node>, n: Node)
    ensures Ids(s + [n]) == Ids(s) + {n.id}
    ensures DistinctIds(s) && n.id !in Ids(s) ==> DistinctIds(s + [n])
  {
  }

  lemma PopDistinct(s: seq<Node>)
    requires s != [] && DistinctIds(s)
    ensures DistinctIds(s[..|s| - 1]) && Ids(s[..|s| - 1]) == Ids(s) - {s[|s| - 1].id}
  {
    assert s == s[..|s| - 1] + [s[|s| - 1]];
    AppendDistinct(s[..|s| - 1], s[|s| - 1]);
  }

  /** A node is finished or queued as soon as, and only when, nothing is pending on it. */
  ghost predicate ListedWhenFree(inDegree: map<Id, nat>, done: set<Id>, queued: set<Id>) {
    && done !! queued
    && forall v :: v in inDegree ==> (inDegree[v] == 0 <==> v in done || v in queued)
  }

  /** The edges in `out` are still counted although their source is in `done`. */
  ghost predicate Discounted(inDegree: map<Id, nat>, edges: seq<Edge>, out: seq<Edge>, done: set<Id>) {
    forall v :: v in inDegree ==> inDegree[v] == Pending(edges, v, done) + Pending(out, v, {})
  }

  lemma DiscountStart(inDegree: map<Id, nat>, edges: seq<Edge>, u: Id, done: set<Id>)
    requires u !in done && forall v :: v in inDegree ==> inDegree[v] == Pending(edges, v, done)
    ensures Discounted(inDegree, edges, EdgesFrom(edges, u), done + {u})
  {
    forall v | v in inDegree {
      PendingFinish(edges, v, done, u);
    }
  }

  lemma {:induction false} PendingHead(edges: seq<Edge>, v: Id)
    requires edges != []
    ensures Pending(edges, v, {}) == Pending(edges[1..], v, {}) + if edges[0].to == v then 1 else 0
  {
    if |edges| > 1 {
      var rest := edges[..|edges| - 1];
      PendingHead(rest, v);
      assert rest[1..] == edges[1..][..|edges| - 2];
    }
  }

  lemma DiscountNext(inDegree: map<Id, nat>, edges: seq<Edge>, out: seq<Edge>, done: set<Id>)
    requires out != [] && Discounted(inDegree, edges, out, done)
    ensures out[0].to !in inDegree ==> Discounted(inDegree, edges, out[1..], done)
    ensures out[0].to in inDegree ==>
      && inDegree[out[0].to] > 0
      && Discounted(inDegree[out[0].to := inDegree[out[0].to] - 1], edges, out[1..], done)
  {
    forall v | v in inDegree {
      PendingHead(out, v);
    }
  }

  /** Discounts the edges that leave `node` and queues what becomes free.
      No counter is ever decremented below zero. */
  method Release(nodes: seq<Node>, edges: seq<Edge>, node: Node, queue0: seq<Node>,
                 inDegree0: map<Id, nat>, ghost done: set<Id>)
    returns (queue: seq<Node>, inDegree: map<Id, nat>)
    requires DistinctIds(queue0) && forall n :: n in queue0 ==> n in nodes
    requires node.id !in done && DegreesMatch(inDegree0, nodes, edges, done)
    requires ListedWhenFree(inDegree0, done + {node.id}, Ids(queue0))
    ensures DistinctIds(queue) && forall n :: n in queue ==> n in nodes
    ensures DegreesMatch(inDegree, nodes, edges, done + {node.id})
    ensures ListedWhenFree(inDegree, done + {node.id}, Ids(queue))
  {
    hide Discounted, ListedWhenFree, Pending, DistinctIds;
    queue, inDegree := queue0, inDegree0;
    var out := EdgesFrom(edges, node.id);
    assert out[0..] == out;
    DiscountStart(inDegree, edges, node.id, done);
    for i := 0 to |out|
      invariant inDegree.Keys == Ids(nodes) && Discounted(inDegree, edges, out[i..], done + {node.id})
      invariant DistinctIds(queue) && forall n :: n in queue ==> n in nodes
      invariant ListedWhenFree(inDegree, done + {node.id}, Ids(queue))
    {
      var to := out[i].to;
      assert out[i..][0] == out[i] && out[i..][1..] == out[i + 1..];
      DiscountNext(inDegree, edges, out[i..], done + {node.id});
      if to in inDegree {
        ghost var before := inDegree;
        inDegree := inDegree[to := inDegree[to] - 1];
        if inDegree[to] == 0 {
          var next := GetNode(nodes, to);
          AppendDistinct(queue, next.value);
          FreedIsListed(before, inDegree, to, done + {node.id}, Ids(queue));
          queue := queue + [next.value];
        } else {
          StillListed(before, inDegree, to, done + {node.id}, Ids(queue));
        }
      }
    }
    DiscountEnd(inDegree, nodes, edges, out[|out|..], done + {node.id});
  }

  lemma DiscountEnd(inDegree: map<Id, nat>, nodes: seq<Node>, edges: seq<Edge>, out: seq<Edge>, done: set<Id>)
    requires out == [] && inDegree.Keys == Ids(nodes) && Discounted(inDegree, edges, out, done)
    ensures DegreesMatch(inDegree, nodes, edges, done)
  {
  }

  lemma StillListed(before: map<Id, nat>, after: map<Id, nat>, to: Id, done: set<Id>, queued: set<Id>)
    requires ListedWhenFree(before, done, queued)
    requires to in before && before[to] > 1 && after == before[to := before[to] - 1]
    ensures ListedWhenFree(after, done, queued)
  {
  }

  lemma FreedIsListed(before: map<Id, nat>, after: map<Id, nat>, to: Id, done: set<Id>, queued: set<Id>)
    requires ListedWhenFree(before, done, queued)
    requires to in before && before[to] > 0 && after == before[to := 0]
    ensures to !in queued && ListedWhenFree(after, done, queued + {to})
  {
  }

  /** Kahn's sort is exact. Used by the plan for all its edges and by the validator for
      the edges that do not enter a LOOP. */
  method TopologicalOrder(nodes: seq<Node>, edges: seq<Edge>) returns (r: Result<seq<Node>, string>)
    requires DistinctIds(nodes)
    ensures r.Ok? <==> Sortable(nodes, edges)
    ensures r.Ok? ==> multiset(r.value) == multiset(nodes) && Forward(r.value, edges)
  {
    var inDegree := InDegrees(nodes, edges);
    var queue := Roots(nodes, inDegree);
    var result: seq<Node> := [];
    RootsAreFree(nodes, inDegree, queue);
    assert Ids(result) == {};
    while queue != []
      invariant DistinctIds(result) && DistinctIds(queue)
      invariant forall n :: n in result || n in queue ==> n in nodes
      invariant DegreesMatch(inDegree, nodes, edges, Ids(result))
      invariant ListedWhenFree(inDegree, Ids(result), Ids(queue))
      invariant Forward(result, edges)
      decreases |nodes| - |result|
    {
      var node := queue[|queue| - 1];
      PopDistinct(queue);
      ghost var done := Ids(result);
      PendingZero(edges, node.id, done);
      AppendDistinct(result, node);
      AppendForward(result, node, edges);
      queue, inDegree := Release(nodes, edges, node, queue[..|queue| - 1], inDegree, done);
      result := result + [node];
      SameLengthIsPermutation(result, nodes);
    }
    SameLengthIsPermutation(result, nodes);
    if |result| != |nodes| {
      if SourcesKnown(nodes, edges) {
        StuckHasCycle(nodes, edges, result, inDegree);
      }
      return Err("Graph contains a cycle");
    }
    ForwardIsSortable(nodes, edges, result);
    return Ok(result);
  }

  lemma RootsAreFree(nodes: seq<Node>, inDegree: map<Id, nat>, queue: seq<Node>)
    requires inDegree.Keys == Ids(nodes)
    requires forall n :: n in queue <==> n in nodes && inDegree[n.id] == 0
    ensures ListedWhenFree(inDegree, Ids([]), Ids(queue))
  {
    forall v | v in inDegree
      ensures inDegree[v] == 0 <==> v in Ids(queue)
    {
      var n :| n in nodes && n.id == v;
      assert inDegree[v] == 0 ==> n in queue;
    }
  }

  lemma AppendForward(order: seq<Node>, node: Node, edges: seq<Edge>)
    requires Forward(order, edges)
    requires forall e :: e in edges && e.to == node.id ==> e.from in Ids(order)
    ensures Forward(order + [node], edges)
  {
    var longer := order + [node];
    assert longer[..|order|] == order;
    forall j, e | 0 <= j < |longer| && e in edges && e.to == longer[j].id
      ensures e.from in Ids(longer[..j])
    {
      if j < |order| {
        assert longer[..j] == order[..j];
      }
    }
  }

  /** If the list runs dry early, every node left over waits for another one left over. */
  lemma StuckHasCycle(nodes: seq<Node>, edges: seq<Edge>, result: seq<Node>, inDegree: map<Id, nat>)
    requires DistinctIds(nodes) && SourcesKnown(nodes, edges)
    requires DistinctIds(result) && |result| < |nodes| && forall n :: n in result ==> n in nodes
    requires DegreesMatch(inDegree, nodes, edges, Ids(result))
    requires ListedWhenFree(inDegree, Ids(result), {})
    ensures !Acyclic(KnownArcs(nodes, edges))
  {
    var left := Ids(nodes) - Ids(result);
    DistinctCount(nodes);
    DistinctCount(result);
    if left == {} {
      assert Ids(nodes) <= Ids(result);
      CardinalitySubset(Ids(nodes), Ids(result));
      assert false;
    }
    forall v | v in left
      ensures HasPredecessor(KnownArcs(nodes, edges), left, v)
    {
      PendingZero(edges, v, Ids(result));
      var e :| e in edges && e.to == v && e.from !in Ids(result);
      assert (e.from, v) in KnownArcs(nodes, edges);
    }
    NoSourceNoOrder(KnownArcs(nodes, edges), left);
  }

  lemma ForwardIsSortable(nodes: seq<Node>, edges: seq<Edge>, order: seq<Node>)
    requires DistinctIds(order) && Ids(order) == Ids(nodes) && Forward(order, edges)
    ensures Sortable(nodes, edges)
  {
    var rank := Positions(order);
    forall u, v | (u, v) in KnownArcs(nodes, edges)
      ensures u in rank && v in rank && rank[u] < rank[v]
    {
      var j :| 0 <= j < |order| && order[j].id == v;
      assert u in Ids(order[..j]);
      var i :| 0 <= i < j && order[i].id == u;
    }
    IncreasingIsAcyclic(KnownArcs(nodes, edges), rank);
    forall e | e in edges && e.to in Ids(nodes)
      ensures e.from in Ids(nodes)
    {
      assert (e.from, e.to) in KnownArcs(nodes, edges);
    }
  }

  ghost function Positions(order: seq<Node>): (rank: map<Id, nat>)
    requires DistinctIds(order)
    ensures rank.Keys == Ids(order)
    ensures forall i :: 0 <= i < |order| ==> order[i].id in rank && rank[order[i].id] == i
  {
    if order == [] then map[]
    else
      var last := |order| - 1;
      assert order == order[..last] + [order[last]];
      assert Ids(order) == Ids(order[..last]) + {order[last].id};
      Positions(order[..last])[order[last].id := last]
  }

  /** With no dangling edge the sort fails exactly on a cycle. */
  lemma SortableWithoutDangling(nodes: seq<Node>, edges: seq<Edge>)
    requires WellReferenced(nodes, edges)
    ensures Sortable(nodes, edges) <==> Acyclic(Arcs(edges))
  {
    assert KnownArcs(nodes, edges) == Arcs(edges);
  }
}
