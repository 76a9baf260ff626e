/** The compiled plan: node ids become indices, group titles become entries of a table. */
module Compiled {
  import opened Wrappers
  import opened Graphs
  import opened Plan

  const U32_MAX: nat := 0xFFFF_FFFF

  datatype CompiledNode = CompiledNode(
    index: nat, id: Id, op: Opcode, args: seq<string>, branchId: Option<nat>, groupId: Option<nat>)

  datatype CompiledEdge = CompiledEdge(
    fromIndex: nat, toIndex: nat, condition: Option<string>, priority: Option<int>, caption: Option<string>, kind: EdgeKind)

  datatype CompiledPlan = CompiledPlan(nodes: seq<CompiledNode>, edges: seq<CompiledEdge>, groups: seq<string>)

  // ── What the indices and the table mean ─────────────────────────

  /** The entry a hash map ends up with: the last index at which the id occurs. */
  function IndexOf(nodes: seq<Node>, id: Id): (r: nat)
    ensures id in Ids(nodes) ==> r < |nodes| && nodes[r].id == id
    ensures id !in Ids(nodes) ==> r == U32_MAX
  {
    if nodes == [] then U32_MAX
    else
      var last := |nodes| - 1;
      assert nodes == nodes[..last] + [nodes[last]];
      if nodes[last].id == id then last else IndexOf(nodes[..last], id)
  }

  /** The group titles, each once, in the order of their first use. */
  function Titles(nodes: seq<Node>): seq<string> {
    if nodes == [] then []
    else
      var rest, g := Titles(nodes[..|nodes| - 1]), nodes[|nodes| - 1].group;
      if g.Some? && g.value !in rest then rest + [g.value] else rest
  }

  ghost predicate NodeMatches(c: CompiledNode, n: Node, index: nat, groups: seq<string>) {
    && c.index == index && c.id == n.id && c.op == n.op && c.args == n.args && c.branchId == n.branchId
    && match n.group
       case None => c.groupId == None
       case Some(title) => c.groupId.Some? && c.groupId.value < |groups| && groups[c.groupId.value] == title
  }

  ghost predicate EdgeMatches(c: CompiledEdge, e: Edge, nodes: seq<Node>) {
    c == CompiledEdge(IndexOf(nodes, e.from), IndexOf(nodes, e.to), e.condition, e.priority, e.caption, e.kind)
  }

  /** The index is the place of the node with this id, the last one if there are several, or the sentinel if there is none. */
  ghost predicate Stands(index: nat, id: Id, nodes: seq<Node>) {
    if index < |nodes| then nodes[index].id == id && forall k :: index < k < |nodes| ==> nodes[k].id != id
    else index == U32_MAX && forall n :: n in nodes ==> n.id != id
  }

  lemma {:induction false} IndexStands(nodes: seq<Node>, id: Id)
    requires |nodes| <= U32_MAX
    ensures Stands(IndexOf(nodes, id), id, nodes)
  {
    if nodes != [] && nodes[|nodes| - 1].id != id {
      var rest := nodes[..|nodes| - 1];
      IndexStands(rest, id);
      assert nodes == rest + [nodes[|nodes| - 1]];
    }
  }

  /** Interns the group titles and numbers the nodes by position. */
  method CompileNodes(nodes: seq<Node>) returns (compiled: seq<CompiledNode>, groups: seq<string>)
    ensures groups == Titles(nodes)
    ensures |compiled| == |nodes| && forall i :: 0 <= i < |nodes| ==> NodeMatches(compiled[i], nodes[i], i, groups)
  {
    var groupIndex: map<string, nat> := map[];
    groups, compiled := [], [];
    for i := 0 to |nodes|
      invariant groups == Titles(nodes[..i]) && IndexesTitles(groupIndex, groups)
      invariant |compiled| == i && forall k :: 0 <= k < i ==> NodeMatches(compiled[k], nodes[k], k, groups)
    {
      var n := nodes[i];
      assert nodes[..i + 1][..i] == nodes[..i];
      ghost var before := groups;
      var groupId := None;
      if n.group.Some? {
        if n.group.value !in groupIndex {
          groups := groups + [n.group.value];
          groupIndex := groupIndex[n.group.value := |groups| - 1];
        }
        groupId := Some(groupIndex[n.group.value]);
      }
      forall k | 0 <= k < i
        ensures NodeMatches(compiled[k], nodes[k], k, groups)
      {
        assert NodeMatches(compiled[k], nodes[k], k, before);
      }
      compiled := compiled + [CompiledNode(i, n.id, n.op, n.args, n.branchId, groupId)];
    }
    assert nodes[..|nodes|] == nodes;
  }

  ghost predicate IndexesTitles(groupIndex: map<string, nat>, groups: seq<string>) {
    && (forall t :: t in groupIndex <==> t in groups)
    && (forall t :: t in groupIndex ==> groupIndex[t] < |groups| && groups[groupIndex[t]] == t)
  }

  method IdToIndex(nodes: seq<Node>) returns (idToIndex: map<Id, nat>)
    ensures idToIndex.Keys == Ids(nodes)
    ensures forall id :: id in idToIndex ==> idToIndex[id] == IndexOf(nodes, id)
  {
    idToIndex := map[];
    for i := 0 to |nodes|
      invariant idToIndex.Keys == Ids(nodes[..i])
      invariant forall id :: id in idToIndex ==> idToIndex[id] == IndexOf(nodes[..i], id)
    {
      assert nodes[..i + 1][..i] == nodes[..i];
      assert nodes[..i + 1] == nodes[..i] + [nodes[i]];
      idToIndex := idToIndex[nodes[i].id := i];
    }
    assert nodes[..|nodes|] == nodes;
  }

  method FromExecutionPlan(nodes: seq<Node>, edges: seq<Edge>) returns (c: CompiledPlan)
    ensures CompiledFrom(c, nodes, edges)
    ensures |c.nodes| == |nodes| && |c.edges| == |edges|
    ensures forall i :: 0 <= i < |nodes| ==>
      && c.nodes[i].index == i && c.nodes[i].id == nodes[i].id && c.nodes[i].op == nodes[i].op
      && c.nodes[i].args == nodes[i].args && c.nodes[i].branchId == nodes[i].branchId
      && (c.nodes[i].groupId.Some? <==> nodes[i].group.Some?)
      && (nodes[i].group.Some? ==> c.nodes[i].groupId.value < |c.groups| && c.groups[c.nodes[i].groupId.value] == nodes[i].group.value)
    ensures forall k :: 0 <= k < |edges| ==>
      && c.edges[k].condition == edges[k].condition && c.edges[k].priority == edges[k].priority
      && c.edges[k].caption == edges[k].caption && c.edges[k].kind == edges[k].kind
    ensures |nodes| <= U32_MAX ==> forall k :: 0 <= k < |edges| ==>
      Stands(c.edges[k].fromIndex, edges[k].from, nodes) && Stands(c.edges[k].toIndex, edges[k].to, nodes)
  {
    hide Stands;
    var idToIndex := IdToIndex(nodes);
    var compiled, groups := CompileNodes(nodes);
    var compiledEdges: seq<CompiledEdge> := [];
    for i := 0 to |edges|
      invariant |compiledEdges| == i && forall k :: 0 <= k < i ==> EdgeMatches(compiledEdges[k], edges[k], nodes)
    {
      var e := edges[i];
      var from := if e.from in idToIndex then idToIndex[e.from] else U32_MAX;
      var to := if e.to in idToIndex then idToIndex[e.to] else U32_MAX;
      compiledEdges := compiledEdges + [CompiledEdge(from, to, e.condition, e.priority, e.caption, e.kind)];
    }
    c := CompiledPlan(compiled, compiledEdges, groups);
    if |nodes| <= U32_MAX {
      forall k | 0 <= k < |edges|
        ensures Stands(c.edges[k].fromIndex, edges[k].from, nodes) && Stands(c.edges[k].toIndex, edges[k].to, nodes)
      {
        assert EdgeMatches(c.edges[k], edges[k], nodes);
        IndexStands(nodes, edges[k].from);
        IndexStands(nodes, edges[k].to);
      }
    }
  }

  // ── Indices carry the same graph ────────────────────────────────

  ghost function IndexArcs(edges: seq<CompiledEdge>): set<(nat, nat)> {
    set e | e in edges :: (e.fromIndex, e.toIndex)
  }

  ghost predicate CompiledFrom(c: CompiledPlan, nodes: seq<Node>, edges: seq<Edge>) {
    && c.groups == Titles(nodes)
    && |c.nodes| == |nodes| && (forall i :: 0 <= i < |nodes| ==> NodeMatches(c.nodes[i], nodes[i], i, c.groups))
    && |c.edges| == |edges| && (forall i :: 0 <= i < |edges| ==> EdgeMatches(c.edges[i], edges[i], nodes))
  }

  lemma IndexOfNode(nodes: seq<Node>, i: nat)
    requires DistinctIds(nodes) && i < |nodes|
    ensures IndexOf(nodes, nodes[i].id) == i
  {
  }

  /** No endpoint is lost, and arcs between nodes are arcs between their indices. */
  lemma SameArcs(c: CompiledPlan, nodes: seq<Node>, edges: seq<Edge>, i: nat, j: nat)
    requires CompiledFrom(c, nodes, edges) && WellReferenced(nodes, edges) && i < |nodes| && j < |nodes|
    ensures forall e :: e in c.edges ==> e.fromIndex < |nodes| && e.toIndex < |nodes|
    ensures (i, j) in IndexArcs(c.edges) <==> (nodes[i].id, nodes[j].id) in Arcs(edges)
  {
    forall k | 0 <= k < |edges|
      ensures edges[k].from in Ids(nodes) && edges[k].to in Ids(nodes)
    {
      assert edges[k] in edges;
    }
    if (i, j) in IndexArcs(c.edges) {
      var k :| 0 <= k < |edges| && c.edges[k].fromIndex == i && c.edges[k].toIndex == j;
      assert edges[k] in edges;
    }
    if (nodes[i].id, nodes[j].id) in Arcs(edges) {
      var k :| 0 <= k < |edges| && edges[k].from == nodes[i].id && edges[k].to == nodes[j].id;
      IndexOfNode(nodes, i);
      IndexOfNode(nodes, j);
      assert c.edges[k] in c.edges;
    }
  }

  /** Paths between nodes are paths between their indices, and back. */
  lemma SameReachability(c: CompiledPlan, nodes: seq<Node>, edges: seq<Edge>, i: nat, j: nat)
    requires CompiledFrom(c, nodes, edges) && WellReferenced(nodes, edges) && i < |nodes| && j < |nodes|
    ensures Reaches(IndexArcs(c.edges), i, j) <==> Reaches(Arcs(edges), nodes[i].id, nodes[j].id)
  {
    var byIndex: nat -> Id := (k: nat) => if k < |nodes| then nodes[k].id else 0;
    var byId: Id -> nat := id => IndexOf(nodes, id);
    forall a, b | (a, b) in IndexArcs(c.edges)
      ensures (byIndex(a), byIndex(b)) in Arcs(edges)
    {
      SameArcs(c, nodes, edges, 0, 0);
      SameArcs(c, nodes, edges, a, b);
    }
    forall u, v | (u, v) in Arcs(edges)
      ensures (byId(u), byId(v)) in IndexArcs(c.edges)
    {
      SameArcs(c, nodes, edges, byId(u), byId(v));
    }
    IndexOfNode(nodes, i);
    IndexOfNode(nodes, j);
    if Reaches(IndexArcs(c.edges), i, j) {
      ReachesMaps(IndexArcs(c.edges), Arcs(edges), byIndex, i, j);
    }
    if Reaches(Arcs(edges), nodes[i].id, nodes[j].id) {
      ReachesMaps(Arcs(edges), IndexArcs(c.edges), byId, nodes[i].id, nodes[j].id);
    }
  }

  // ── The group table ─────────────────────────────────────────────

  ghost predicate UsesGroup(n: Node, title: string) {
    n.group == Some(title)
  }

  ghost predicate FirstUse(nodes: seq<Node>, i: nat, title: string) {
    i < |nodes| && UsesGroup(nodes[i], title) && forall k :: 0 <= k < i ==> !UsesGroup(nodes[k], title)
  }

  /** Entry `a` of the table is first used before entry `b` exactly if `a < b`; no title occurs twice,
      and every used title has an entry. */
  lemma {:induction false} TitlesInFirstUseOrder(nodes: seq<Node>) returns (first: seq<nat>)
    ensures |first| == |Titles(nodes)|
    ensures forall a :: 0 <= a < |first| ==> FirstUse(nodes, first[a], Titles(nodes)[a])
    ensures forall a, b :: 0 <= a < b < |first| ==> first[a] < first[b] && Titles(nodes)[a] != Titles(nodes)[b]
    ensures forall i, t :: 0 <= i < |nodes| && UsesGroup(nodes[i], t) ==> t in Titles(nodes)
  {
    first := [];
    if nodes != [] {
      var rest, n := nodes[..|nodes| - 1], nodes[|nodes| - 1];
      first := TitlesInFirstUseOrder(rest);
      forall a | 0 <= a < |first|
        ensures FirstUse(nodes, first[a], Titles(rest)[a])
      {
        assert FirstUse(rest, first[a], Titles(rest)[a]);
      }
      if n.group.Some? && n.group.value !in Titles(rest) {
        NewTitle(rest, n);
        assert rest + [n] == nodes;
        first := first + [|rest|];
      }
      forall i, t | 0 <= i < |nodes| && UsesGroup(nodes[i], t)
        ensures t in Titles(nodes)
      {
        assert i < |rest| ==> UsesGroup(rest[i], t);
      }
    }
  }

  lemma NewTitle(rest: seq<Node>, n: Node)
    requires n.group.Some? && n.group.value !in Titles(rest)
    requires forall i, t :: 0 <= i < |rest| && UsesGroup(rest[i], t) ==> t in Titles(rest)
    ensures FirstUse(rest + [n], |rest|, n.group.value)
  {
    forall k | 0 <= k < |rest|
      ensures !UsesGroup((rest + [n])[k], n.group.value)
    {
      assert (rest + [n])[k] == rest[k];
    }
  }

  // ── The binary record form ──────────────────────────────────────

  /** A node or edge as a table of the binary format: absent fields hold their default. */
  datatype NodeRecord = NodeRecord(index: nat, id: Id, op: nat, args: seq<string>, branchId: nat, groupId: nat)

  datatype EdgeRecord = EdgeRecord(
    fromIndex: nat, toIndex: nat, condition: Option<string>, priority: int, caption: Option<string>, kind: nat)

  function OpcodeByte(op: Opcode): nat {
    match op
    case Input => 0
    case Call => 1
    case Calc => 2
    case Decide => 3
    case Switch => 4
    case Act => 5
    case Parallel => 6
    case Loop => 7
    case Wait => 8
    case Merge => 9
    case Error => 10
  }

  function OpcodeOf(b: nat): Opcode {
    match b
    case 0 => Input
    case 1 => Opcode.Call
    case 2 => Calc
    case 3 => Decide
    case 4 => Switch
    case 5 => Act
    case 6 => Parallel
    case 7 => Loop
    case 8 => Wait
    case 9 => Merge
    case 10 => Error
    case _ => Input
  }

  function Encode(n: CompiledNode): NodeRecord {
    NodeRecord(n.index, n.id, OpcodeByte(n.op), n.args,
               if n.branchId.Some? then n.branchId.value else U32_MAX,
               if n.groupId.Some? then n.groupId.value else U32_MAX)
  }

  function Decode(r: NodeRecord): CompiledNode {
    CompiledNode(r.index, r.id, OpcodeOf(r.op), r.args,
                 if r.branchId == U32_MAX then None else Some(r.branchId),
                 if r.groupId == U32_MAX then None else Some(r.groupId))
  }

  function EncodeEdge(e: CompiledEdge): EdgeRecord {
    EdgeRecord(e.fromIndex, e.toIndex, e.condition, if e.priority.Some? then e.priority.value else 0, e.caption,
               if e.kind == Data then 0 else 1)
  }

  function NonEmpty(s: Option<string>): Option<string> {
    if s == Some("") then None else s
  }

  function DecodeEdge(r: EdgeRecord): CompiledEdge {
    CompiledEdge(r.fromIndex, r.toIndex, NonEmpty(r.condition), if r.priority == 0 then None else Some(r.priority),
                 NonEmpty(r.caption), if r.kind == 1 then Control else Data)
  }

  /** A node survives the round trip unless an id equals the sentinel for "none". */
  lemma NodeRoundTrip(n: CompiledNode)
    ensures Decode(Encode(n)) == n <==> n.branchId != Some(U32_MAX) && n.groupId != Some(U32_MAX)
    ensures Encode(Decode(Encode(n))) == Encode(n)
  {
  }

  /** An edge survives unless its priority is 0 or its condition or label is empty;
      a second round trip changes nothing more. */
  lemma EdgeRoundTrip(e: CompiledEdge)
    ensures DecodeEdge(EncodeEdge(e)) == e <==> e.priority != Some(0) && e.condition != Some("") && e.caption != Some("")
    ensures DecodeEdge(EncodeEdge(DecodeEdge(EncodeEdge(e)))) == DecodeEdge(EncodeEdge(e))
  {
  }
}
