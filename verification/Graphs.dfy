/** Walks, cycles and reachability in a finite directed graph, given by its set of arcs. */
module Graphs {

  ghost predicate Walk<V(!new)>(arcs: set<(V, V)>, p: seq<V>) {
    p != [] && forall i :: 0 <= i < |p| - 1 ==> (p[i], p[i + 1]) in arcs
  }

  ghost predicate WalkFromTo<V(!new)>(arcs: set<(V, V)>, p: seq<V>, u: V, v: V) {
    Walk(arcs, p) && p[0] == u && p[|p| - 1] == v
  }

  /** Every vertex reaches itself by the walk of length zero. */
  ghost predicate Reaches<V(!new)>(arcs: set<(V, V)>, u: V, v: V) {
    exists p :: WalkFromTo(arcs, p, u, v)
  }

  ghost predicate Cycle<V(!new)>(arcs: set<(V, V)>, p: seq<V>) {
    |p| >= 2 && Walk(arcs, p) && p[0] == p[|p| - 1]
  }

  ghost predicate Acyclic<V(!new)>(arcs: set<(V, V)>) {
    forall p: seq<V> :: !Cycle(arcs, p)
  }

  ghost predicate HasPredecessor<V(!new)>(arcs: set<(V, V)>, s: set<V>, v: V) {
    exists u :: u in s && (u, v) in arcs
  }

  /** No vertex of `s` is a source within `s`. */
  ghost predicate Sourceless<V(!new)>(arcs: set<(V, V)>, s: set<V>) {
    forall v {:trigger HasPredecessor(arcs, s, v)} :: v in s ==> HasPredecessor(arcs, s, v)
  }

  ghost predicate Closed<V(!new)>(arcs: set<(V, V)>, s: set<V>) {
    forall u, v :: (u, v) in arcs && u in s ==> v in s
  }

  ghost predicate Increasing<V(!new)>(arcs: set<(V, V)>, rank: map<V, nat>) {
    forall u, v :: (u, v) in arcs ==> u in rank && v in rank && rank[u] < rank[v]
  }

  // ── Reachability ────────────────────────────────────────────────

  lemma ReachesSelf<V(!new)>(arcs: set<(V, V)>, v: V)
    ensures Reaches(arcs, v, v)
  {
    assert WalkFromTo(arcs, [v], v, v);
  }

  lemma ReachesArc<V(!new)>(arcs: set<(V, V)>, u: V, v: V)
    requires (u, v) in arcs
    ensures Reaches(arcs, u, v)
  {
    assert WalkFromTo(arcs, [u, v], u, v);
  }

  lemma ReachesTrans<V(!new)>(arcs: set<(V, V)>, u: V, v: V, w: V)
    requires Reaches(arcs, u, v) && Reaches(arcs, v, w)
    ensures Reaches(arcs, u, w)
  {
    var p :| WalkFromTo(arcs, p, u, v);
    var q :| WalkFromTo(arcs, q, v, w);
    var r := p + q[1..];
    forall i | 0 <= i < |r| - 1
      ensures (r[i], r[i + 1]) in arcs
    {
      if i >= |p| - 1 {
        var k := i - (|p| - 1);
        assert r[i] == q[k] && r[i + 1] == q[k + 1];
      }
    }
    assert WalkFromTo(arcs, r, u, w);
  }

  lemma ReachesStep<V(!new)>(arcs: set<(V, V)>, u: V, v: V, w: V)
    requires Reaches(arcs, u, v) && (v, w) in arcs
    ensures Reaches(arcs, u, w)
  {
    ReachesArc(arcs, v, w);
    ReachesTrans(arcs, u, v, w);
  }

  lemma ReachesMono<V(!new)>(small: set<(V, V)>, big: set<(V, V)>, u: V, v: V)
    requires small <= big && Reaches(small, u, v)
    ensures Reaches(big, u, v)
  {
    var p :| WalkFromTo(small, p, u, v);
    assert WalkFromTo(big, p, u, v);
  }

  lemma {:induction false} ClosedWalk<V(!new)>(arcs: set<(V, V)>, s: set<V>, p: seq<V>)
    requires Closed(arcs, s) && Walk(arcs, p) && p[0] in s
    ensures forall i :: 0 <= i < |p| ==> p[i] in s
  {
    if |p| > 1 {
      assert (p[0], p[1]) in arcs;
      ClosedWalk(arcs, s, p[1..]);
      assert forall i :: 1 <= i < |p| ==> p[i] == p[1..][i - 1];
    }
  }

  lemma ClosedReaches<V(!new)>(arcs: set<(V, V)>, s: set<V>, u: V, v: V)
    requires Closed(arcs, s) && u in s && Reaches(arcs, u, v)
    ensures v in s
  {
    var p :| WalkFromTo(arcs, p, u, v);
    ClosedWalk(arcs, s, p);
  }

  // ── Cycles ──────────────────────────────────────────────────────

  lemma {:induction false} IncreasingWalk<V(!new)>(arcs: set<(V, V)>, rank: map<V, nat>, p: seq<V>)
    requires Increasing(arcs, rank) && Walk(arcs, p) && |p| >= 2
    ensures p[0] in rank && p[|p| - 1] in rank && rank[p[0]] < rank[p[|p| - 1]]
  {
    assert (p[0], p[1]) in arcs;
    if |p| > 2 {
      IncreasingWalk(arcs, rank, p[1..]);
    }
  }

  /** A rank that grows along every arc rules out cycles. */
  lemma IncreasingIsAcyclic<V(!new)>(arcs: set<(V, V)>, rank: map<V, nat>)
    requires Increasing(arcs, rank)
    ensures Acyclic(arcs)
  {
    forall p: seq<V> | Cycle(arcs, p)
      ensures false
    {
      IncreasingWalk(arcs, rank, p);
    }
  }

  lemma AcyclicSubset<V(!new)>(small: set<(V, V)>, big: set<(V, V)>)
    requires small <= big && Acyclic(big)
    ensures Acyclic(small)
  {
    forall p: seq<V> | Cycle(small, p)
      ensures false
    {
      assert Cycle(big, p);
    }
  }

  lemma {:induction false} Pigeonhole<V>(p: seq<V>, s: set<V>) returns (i: nat, j: nat)
    requires |p| > |s| && forall k :: 0 <= k < |p| ==> p[k] in s
    ensures i < j < |p| && p[i] == p[j]
  {
    if k :| 1 <= k < |p| && p[k] == p[0] {
      i, j := 0, k;
    } else {
      assert p[0] in s;
      assert |s - {p[0]}| == |s| - 1;
      i, j := Pigeonhole(p[1..], s - {p[0]});
      i, j := i + 1, j + 1;
    }
  }

  /** In a set where every vertex has a predecessor one can walk backwards for ever. */
  lemma {:induction false} WalkBack<V(!new)>(arcs: set<(V, V)>, s: set<V>, n: nat) returns (p: seq<V>)
    requires s != {} && Sourceless(arcs, s)
    ensures |p| == n + 1 && Walk(arcs, p) && forall k :: 0 <= k < |p| ==> p[k] in s
  {
    if n == 0 {
      var v :| v in s;
      p := [v];
    } else {
      var q := WalkBack(arcs, s, n - 1);
      assert HasPredecessor(arcs, s, q[0]);
      var u :| u in s && (u, q[0]) in arcs;
      p := [u] + q;
    }
  }

  lemma NoSourceNoOrder<V(!new)>(arcs: set<(V, V)>, s: set<V>)
    requires s != {} && Sourceless(arcs, s)
    ensures !Acyclic(arcs)
  {
    var p := WalkBack(arcs, s, |s|);
    var i, j := Pigeonhole(p, s);
    var c := p[i..j + 1];
    assert forall k :: 0 <= k < |c| ==> c[k] == p[i + k];
    assert Cycle(arcs, c);
  }

  lemma FindSource<V(!new)>(arcs: set<(V, V)>, s: set<V>) returns (v: V)
    requires s != {} && Acyclic(arcs)
    ensures v in s && forall u :: u in s ==> (u, v) !in arcs
  {
    if Sourceless(arcs, s) {
      NoSourceNoOrder(arcs, s);
    }
    v :| v in s && !HasPredecessor(arcs, s, v);
  }

  /** The converse of IncreasingIsAcyclic: an acyclic finite graph has such a rank. */
  lemma {:induction false} RankOf<V(!new)>(arcs: set<(V, V)>, s: set<V>) returns (rank: map<V, nat>)
    requires Acyclic(arcs)
    ensures rank.Keys == s
    ensures forall u, v :: (u, v) in arcs && u in s && v in s ==> rank[u] < rank[v]
    decreases s
  {
    if s == {} {
      rank := map[];
    } else {
      var v := FindSource(arcs, s);
      var rest := RankOf(arcs, s - {v});
      rank := map w | w in s :: if w == v then 0 else rest[w] + 1;
    }
  }

  // ── Homomorphisms ───────────────────────────────────────────────

  /** `f` sends every arc to an arc, or to a single vertex. */
  ghost predicate Maps<V(!new), W(!new)>(arcs: set<(V, V)>, images: set<(W, W)>, f: V -> W) {
    forall u, v :: (u, v) in arcs ==> f(u) == f(v) || (f(u), f(v)) in images
  }

  lemma {:induction false} WalkMaps<V(!new), W(!new)>(arcs: set<(V, V)>, images: set<(W, W)>, f: V -> W, p: seq<V>)
    requires Maps(arcs, images, f) && Walk(arcs, p)
    ensures Reaches(images, f(p[0]), f(p[|p| - 1]))
  {
    ReachesSelf(images, f(p[0]));
    if |p| > 1 {
      assert (p[0], p[1]) in arcs;
      WalkMaps(arcs, images, f, p[1..]);
      if f(p[0]) != f(p[1]) {
        ReachesArc(images, f(p[0]), f(p[1]));
        ReachesTrans(images, f(p[0]), f(p[1]), f(p[|p| - 1]));
      }
    }
  }

  lemma ReachesMaps<V(!new), W(!new)>(arcs: set<(V, V)>, images: set<(W, W)>, f: V -> W, u: V, v: V)
    requires Maps(arcs, images, f) && Reaches(arcs, u, v)
    ensures Reaches(images, f(u), f(v))
  {
    var p :| WalkFromTo(arcs, p, u, v);
    WalkMaps(arcs, images, f, p);
  }
}
