/** What a run of parallel branches leaves in the context, told by what the branches did. */
module ContextRuns {
  import opened Wrappers
  import opened Context

  // ── What the scopes of a run say about it ───────────────────────

  /** The last thing that branch `b` wrote to the key. */
  ghost predicate LastWrite(steps: seq<BranchStep>, b: nat, key: string, value: Value) {
    exists i :: 0 <= i < |steps| && steps[i] == BranchStep(b, WriteKey(key, value)) && NoWriteAfter(steps, i + 1, b, key)
  }

  /** From step `i` on the branch does not write the key. */
  ghost predicate NoWriteAfter(steps: seq<BranchStep>, i: nat, b: nat, key: string) {
    forall j :: i <= j < |steps| && steps[j].branch == b ==> !steps[j].op.WriteKey? || steps[j].op.key != key
  }

  /** The last strategy that branch `b` chose for the key; `Last` if it never chose one. */
  ghost predicate LastChoice(steps: seq<BranchStep>, b: nat, key: string, strategy: MergeStrategy) {
    || (exists i :: 0 <= i < |steps| && steps[i] == BranchStep(b, Choose(key, strategy)) && NoChoiceAfter(steps, i + 1, b, key))
    || (strategy == Last && NoChoiceAfter(steps, 0, b, key))
  }

  ghost predicate NoChoiceAfter(steps: seq<BranchStep>, i: nat, b: nat, key: string) {
    forall j :: i <= j < |steps| && steps[j].branch == b ==> !steps[j].op.Choose? || steps[j].op.key != key
  }

  /** After a run from empty scopes a branch's scope has a key if the branch wrote it, with the last value
      it wrote, and the strategy is the last one it chose. */
  lemma {:induction false} ScopeSays(c: View, steps: seq<BranchStep>, b: nat, key: string)
    requires c.scopes == map[]
    ensures var s := ScopeOf(RunSteps(c, steps), b);
      && (key !in s.variables ==> NoWriteAfter(steps, 0, b, key))
      && (key in s.variables ==> LastWrite(steps, b, key, s.variables[key]))
      && LastChoice(steps, b, key, StrategyOf(s, key))
  {
    if steps != [] {
      var front, last := steps[..|steps| - 1], steps[|steps| - 1];
      ScopeSays(c, front, b, key);
      PerformIsLocal(RunSteps(c, front), last);
      var s, t := ScopeOf(RunSteps(c, front), b), ScopeOf(RunSteps(c, steps), b);
      assert steps == front + [last];
      AloneOne(s, last.op);
      WriteSays(s, t, front, last, b, key);
      ChoiceSays(s, t, front, last, b, key);
    }
  }

  function Applied(s: Scope, op: Op): Scope {
    match op
    case ReadKey(_) => s
    case WriteKey(key, value) => s.(variables := s.variables[key := value])
    case Choose(key, strategy) => s.(strategies := s.strategies[key := strategy])
  }

  lemma AloneOne(s: Scope, op: Op)
    ensures Alone(s, [op]) == Applied(s, op)
  {
    assert [op][..0] == [];
  }

  lemma WriteSays(s: Scope, t: Scope, front: seq<BranchStep>, last: BranchStep, b: nat, key: string)
    requires t == if last.branch == b then Applied(s, last.op) else s
    requires key !in s.variables ==> NoWriteAfter(front, 0, b, key)
    requires key in s.variables ==> LastWrite(front, b, key, s.variables[key])
    ensures key !in t.variables ==> NoWriteAfter(front + [last], 0, b, key)
    ensures key in t.variables ==> LastWrite(front + [last], b, key, t.variables[key])
  {
    hide LastWrite, NoWriteAfter;
    if last.branch == b && last.op.WriteKey? && last.op.key == key {
      assert last == BranchStep(b, WriteKey(key, last.op.value));
      WritesNow(front, b, key, last.op.value);
    } else {
      WritesStay(front, last, b, key);
    }
  }

  lemma WritesNow(front: seq<BranchStep>, b: nat, key: string, value: Value)
    ensures LastWrite(front + [BranchStep(b, WriteKey(key, value))], b, key, value)
  {
    var steps := front + [BranchStep(b, WriteKey(key, value))];
    assert steps[|front|] == BranchStep(b, WriteKey(key, value)) && NoWriteAfter(steps, |front| + 1, b, key);
  }

  lemma WritesStay(front: seq<BranchStep>, last: BranchStep, b: nat, key: string)
    requires last.branch == b ==> !last.op.WriteKey? || last.op.key != key
    ensures NoWriteAfter(front, 0, b, key) ==> NoWriteAfter(front + [last], 0, b, key)
    ensures forall v :: LastWrite(front, b, key, v) ==> LastWrite(front + [last], b, key, v)
  {
    forall v | LastWrite(front, b, key, v)
      ensures LastWrite(front + [last], b, key, v)
    {
      var i :| 0 <= i < |front| && front[i] == BranchStep(b, WriteKey(key, v)) && NoWriteAfter(front, i + 1, b, key);
      assert (front + [last])[i] == BranchStep(b, WriteKey(key, v)) && NoWriteAfter(front + [last], i + 1, b, key);
    }
  }

  lemma ChoiceSays(s: Scope, t: Scope, front: seq<BranchStep>, last: BranchStep, b: nat, key: string)
    requires t == if last.branch == b then Applied(s, last.op) else s
    requires LastChoice(front, b, key, StrategyOf(s, key))
    ensures LastChoice(front + [last], b, key, StrategyOf(t, key))
  {
    var steps, n, x := front + [last], |front|, StrategyOf(s, key);
    if last.branch == b && last.op.Choose? && last.op.key == key {
      assert steps[n] == BranchStep(b, Choose(key, StrategyOf(t, key))) && NoChoiceAfter(steps, n + 1, b, key);
    } else {
      assert StrategyOf(t, key) == x;
      if i :| 0 <= i < n && front[i] == BranchStep(b, Choose(key, x)) && NoChoiceAfter(front, i + 1, b, key) {
        assert steps[i] == BranchStep(b, Choose(key, x)) && NoChoiceAfter(steps, i + 1, b, key);
      } else {
        assert NoChoiceAfter(steps, 0, b, key);
      }
    }
  }

  /** Who wrote the key, in ascending order, and what each of them brings into the merge. */
  ghost predicate Brings(steps: seq<BranchStep>, key: string, writers: seq<nat>, ws: seq<Write>) {
    && Ascending(writers) && |ws| == |writers|
    && (forall b :: b in writers <==> !NoWriteAfter(steps, 0, b, key))
    && forall i :: 0 <= i < |ws| ==> Brought(steps, key, writers[i], ws[i])
  }

  ghost predicate Brought(steps: seq<BranchStep>, key: string, b: nat, w: Write) {
    LastWrite(steps, b, key, w.value) && LastChoice(steps, b, key, w.strategy)
  }

  /** What a key is after a run and its merge: the branches that wrote it each bring their last value and
      their last choice of a strategy, in ascending order, on top of the value from before. */
  lemma MergeBrings(c: View, steps: seq<BranchStep>, r: View, key: string) returns (writers: seq<nat>, ws: seq<Write>)
    requires c.scopes == map[] && MergesTo(RunSteps(c, steps), r)
    ensures Brings(steps, key, writers, ws) && Lookup(r.variables, key) == FoldKey(Lookup(c.variables, key), ws)
  {
    var u := RunSteps(c, steps);
    ScopesAreOwn(c, steps);
    var ids :| Lists(ids, u.scopes.Keys) && r == View(MergeInOrder(u.variables, u.scopes, ids), map[], None, None);
    MergePerKey(u.variables, u.scopes, ids, key);
    ws := Writes(u.scopes, ids, key);
    writers := WritersAmong(c, steps, ids, key);
    forall b
      ensures b in writers <==> !NoWriteAfter(steps, 0, b, key)
    {
      ScopeSays(c, steps, b, key);
      if !NoWriteAfter(steps, 0, b, key) {
        assert b in u.scopes && b in ids;
      }
    }
  }

  lemma {:induction false} WritersAmong(c: View, steps: seq<BranchStep>, ids: seq<nat>, key: string) returns (writers: seq<nat>)
    requires c.scopes == map[] && Ascending(ids) && forall id :: id in ids ==> id in RunSteps(c, steps).scopes
    ensures Ascending(writers) && |writers| == |Writes(RunSteps(c, steps).scopes, ids, key)|
    ensures forall b :: b in writers <==> b in ids && key in RunSteps(c, steps).scopes[b].variables
    ensures forall i :: 0 <= i < |writers| ==> Brought(steps, key, writers[i], Writes(RunSteps(c, steps).scopes, ids, key)[i])
  {
    hide Brought;
    writers := [];
    if ids != [] {
      var scopes, front, last := RunSteps(c, steps).scopes, ids[..|ids| - 1], ids[|ids| - 1];
      assert ids == front + [last];
      var some := WritersAmong(c, steps, front, key);
      if key in scopes[last].variables {
        assert ScopeOf(RunSteps(c, steps), last) == scopes[last];
        ScopeBrings(c, steps, last, key);
        LastIsHighest(ids, some);
        writers := some + [last];
      } else {
        writers := some;
      }
    }
  }

  lemma ScopeBrings(c: View, steps: seq<BranchStep>, b: nat, key: string)
    requires c.scopes == map[] && key in ScopeOf(RunSteps(c, steps), b).variables
    ensures var s := ScopeOf(RunSteps(c, steps), b); Brought(steps, key, b, Write(StrategyOf(s, key), s.variables[key]))
  {
    ScopeSays(c, steps, b, key);
  }

  lemma LastIsHighest(ids: seq<nat>, some: seq<nat>)
    requires ids != [] && Ascending(ids) && Ascending(some) && forall b :: b in some ==> b in ids[..|ids| - 1]
    ensures Ascending(some + [ids[|ids| - 1]])
  {
    forall k | 0 <= k < |some|
      ensures some[k] < ids[|ids| - 1]
    {
      assert some[k] in some;
      var i :| 0 <= i < |ids| - 1 && ids[..|ids| - 1][i] == some[k];
      assert ids[i] < ids[|ids| - 1];
    }
  }

  /** A key for which the highest branch that wrote it chose no strategy ends up with the last value that
      branch wrote, whatever stood there before and whatever the others chose. */
  lemma HighestWriterWins(c: View, steps: seq<BranchStep>, r: View, key: string, b: nat, value: Value)
    requires c.scopes == map[] && MergesTo(RunSteps(c, steps), r)
    requires LastWrite(steps, b, key, value) && NoChoiceAfter(steps, 0, b, key)
    requires forall d :: d > b ==> NoWriteAfter(steps, 0, d, key)
    ensures key in r.variables && r.variables[key] == value
  {
    var writers, ws := MergeBrings(c, steps, r, key);
    HighestIsLast(steps, key, writers, ws, b, value);
    assert LastChoice(steps, b, key, ws[|ws| - 1].strategy);
    LastWins(Lookup(c.variables, key), ws);
  }

  lemma HighestIsLast(steps: seq<BranchStep>, key: string, writers: seq<nat>, ws: seq<Write>, b: nat, value: Value)
    requires Brings(steps, key, writers, ws) && LastWrite(steps, b, key, value)
    requires forall d :: d > b ==> NoWriteAfter(steps, 0, d, key)
    ensures ws != [] && writers[|writers| - 1] == b && ws[|ws| - 1].value == value
    ensures LastChoice(steps, b, key, ws[|ws| - 1].strategy)
  {
    assert !NoWriteAfter(steps, 0, b, key);
    assert b in writers;
    var top := writers[|writers| - 1];
    assert top in writers;
    var i :| 0 <= i < |writers| && writers[i] == b;
    assert Brought(steps, key, top, ws[|ws| - 1]);
    OneLastWrite(steps, b, key, value, ws[|ws| - 1].value);
  }

  lemma OneLastWrite(steps: seq<BranchStep>, b: nat, key: string, v: Value, w: Value)
    requires LastWrite(steps, b, key, v) && LastWrite(steps, b, key, w)
    ensures v == w
  {
    var i :| 0 <= i < |steps| && steps[i] == BranchStep(b, WriteKey(key, v)) && NoWriteAfter(steps, i + 1, b, key);
    var j :| 0 <= j < |steps| && steps[j] == BranchStep(b, WriteKey(key, w)) && NoWriteAfter(steps, j + 1, b, key);
    assert i == j;
  }

  /** A branch has one last choice. */
  lemma OneLastChoice(steps: seq<BranchStep>, b: nat, key: string, x: MergeStrategy, y: MergeStrategy)
    requires LastChoice(steps, b, key, x) && LastChoice(steps, b, key, y)
    ensures x == y
  {
    if i :| 0 <= i < |steps| && steps[i] == BranchStep(b, Choose(key, x)) && NoChoiceAfter(steps, i + 1, b, key) {
      var j :| 0 <= j < |steps| && steps[j] == BranchStep(b, Choose(key, y)) && NoChoiceAfter(steps, j + 1, b, key);
      assert i == j;
    }
  }

  /** Where branches choose, the last choice is the one used: if it is the same for all that wrote the key,
      the laws of that strategy apply to the last values they wrote. */
  lemma ChosenIsUsed(c: View, steps: seq<BranchStep>, r: View, key: string, strategy: MergeStrategy)
    returns (writers: seq<nat>, ws: seq<Write>)
    requires c.scopes == map[] && MergesTo(RunSteps(c, steps), r)
    requires forall b :: !NoWriteAfter(steps, 0, b, key) ==> LastChoice(steps, b, key, strategy)
    ensures Brings(steps, key, writers, ws) && AllUse(ws, strategy)
    ensures Lookup(r.variables, key) == FoldKey(Lookup(c.variables, key), ws)
  {
    writers, ws := MergeBrings(c, steps, r, key);
    forall i | 0 <= i < |ws|
      ensures ws[i].strategy == strategy
    {
      assert writers[i] in writers && Brought(steps, key, writers[i], ws[i]);
      OneLastChoice(steps, writers[i], key, ws[i].strategy, strategy);
    }
  }

  // ── Reading back ────────────────────────────────────────────────

  /** What is read is the first that is there: the active branch's own, the snapshot's, the global one. */
  lemma ReadOrder(c: View, key: string)
    ensures c.active.Some? && c.active.value in c.scopes && key in c.scopes[c.active.value].variables ==>
      Get(c, key) == Some(c.scopes[c.active.value].variables[key])
    ensures (c.active.Some? && c.active.value in c.scopes ==> key !in c.scopes[c.active.value].variables) ==>
      Get(c, key) ==
        if c.parent.Some? && key in c.parent.value.variables then Some(c.parent.value.variables[key])
        else if key in c.variables then Some(c.variables[key]) else None
  {
  }

  /** What was just written is read back, except that outside of branches a snapshot with another value
      under the key still hides it. No other key reads differently. */
  lemma ReadBack(c: View, key: string, value: Value)
    ensures Get(Set(c, key, value), key) == Some(value) <==>
      c.active.Some? || c.parent.None? || key !in c.parent.value.variables || c.parent.value.variables[key] == value
    ensures forall k :: k != key ==> Get(Set(c, key, value), k) == Get(c, k)
  {
  }
}
