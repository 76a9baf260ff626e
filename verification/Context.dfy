/** The execution context: isolated scopes for parallel branches, merged key by key.

    Floating-point numbers are reals: rounding is not modelled. */
module Context {
  import opened Wrappers

  const I64_MAX: int := 0x7FFF_FFFF_FFFF_FFFF
  const I64_MIN: int := -0x8000_0000_0000_0000

  datatype Value =
    | Null
    | Bool(b: bool)
    | Int(i: int)
    | Float(f: real)
    | Str(s: string)
    | Array(items: seq<Value>)
    | Object(fields: map<string, Value>)

  datatype MergeStrategy = Last | First | Min | Max | Concat | Sum | Avg

  datatype Scope = Scope(variables: map<string, Value>, strategies: map<string, MergeStrategy>)

  const EmptyScope := Scope(map[], map[])

  /** The fields of a context as one value. */
  datatype View = View(
    variables: map<string, Value>, scopes: map<nat, Scope>, parent: Option<Scope>, active: Option<nat>)

  function Lookup<V>(m: map<string, V>, key: string): Option<V> {
    if key in m then Some(m[key]) else None
  }

  // ── Values ──────────────────────────────────────────────────────

  function AsF64(v: Value): Option<real> {
    match v
    case Float(f) => Some(f)
    case Int(i) => Some(i as real)
    case _ => None
  }

  /** Integer addition that fails on overflow; mixed operands are added as floats. */
  function CheckedAdd(a: Value, b: Value): Option<Value> {
    match (a, b)
    case (Int(x), Int(y)) => if I64_MIN <= x + y <= I64_MAX then Some(Int(x + y)) else None
    case (Float(x), Float(y)) => Some(Float(x + y))
    case (Int(x), Float(y)) => Some(Float(x as real + y))
    case (Float(x), Int(y)) => Some(Float(x + y as real))
    case _ => None
  }

  /** The value of a key after one more branch has contributed to it. */
  function Combine(strategy: MergeStrategy, existing: Option<Value>, value: Value): Value {
    if existing.None? then value
    else
      var e := existing.value;
      match strategy
      case Last => value
      case First => e
      case Min =>
        var (a, b) := (AsF64(value), AsF64(e));
        if a.Some? && b.Some? && a.value < b.value then value else e
      case Max =>
        var (a, b) := (AsF64(value), AsF64(e));
        if a.Some? && b.Some? && a.value > b.value then value else e
      case Concat =>
        (match (e, value)
         case (Str(a), Str(b)) => Str(a + b)
         case (Array(a), Array(b)) => Array(a + b)
         case _ => value)
      case Sum =>
        var sum := CheckedAdd(e, value);
        if sum.Some? then sum.value else e
      case Avg =>
        var (a, b) := (AsF64(e), AsF64(value));
        if a.Some? && b.Some? then Float((a.value + b.value) / 2.0) else e
  }

  /** Values that a strategy cannot combine: the arithmetic ones keep what was there, `Concat` takes the new value. */
  lemma MismatchesKeep(strategy: MergeStrategy, e: Value, v: Value)
    ensures AsF64(v) == if v.Int? then Some(v.i as real) else if v.Float? then Some(v.f) else None
    ensures strategy in {Min, Max, Sum, Avg} && !((e.Int? || e.Float?) && (v.Int? || v.Float?)) ==> Combine(strategy, Some(e), v) == e
    ensures strategy == Concat && !(e.Str? && v.Str?) && !(e.Array? && v.Array?) ==> Combine(strategy, Some(e), v) == v
  {
  }

  // ── Scopes ──────────────────────────────────────────────────────

  function StrategyOf(s: Scope, key: string): MergeStrategy {
    if key in s.strategies then s.strategies[key] else Last
  }

  /** Branch scope, then the snapshot taken on entry, then the globals. */
  function Get(c: View, key: string): Option<Value> {
    if c.active.Some? && c.active.value in c.scopes && key in c.scopes[c.active.value].variables then
      Some(c.scopes[c.active.value].variables[key])
    else Base(c, key)
  }

  function Base(c: View, key: string): Option<Value> {
    if c.parent.Some? && key in c.parent.value.variables then Some(c.parent.value.variables[key])
    else Lookup(c.variables, key)
  }

  function ScopeOf(c: View, b: nat): Scope {
    if b in c.scopes then c.scopes[b] else EmptyScope
  }

  function Set(c: View, key: string, value: Value): View {
    match c.active
    case Some(b) =>
      var s := ScopeOf(c, b);
      c.(scopes := c.scopes[b := s.(variables := s.variables[key := value])])
    case None => c.(variables := c.variables[key := value])
  }

  function SetStrategy(c: View, key: string, strategy: MergeStrategy): View {
    match c.active
    case Some(b) =>
      var s := ScopeOf(c, b);
      c.(scopes := c.scopes[b := s.(strategies := s.strategies[key := strategy])])
    case None => c
  }

  function EnterParallel(c: View): View {
    View(c.variables, map[], Some(Scope(c.variables, map[])), None)
  }

  function SetBranch(c: View, b: nat): View {
    c.(scopes := c.scopes[b := ScopeOf(c, b)], active := Some(b))
  }

  // ── Merging ─────────────────────────────────────────────────────

  function MergeScope(vars: map<string, Value>, s: Scope): map<string, Value> {
    MergeKeys(vars, s, s.variables.Keys)
  }

  function MergeKeys(vars: map<string, Value>, s: Scope, keys: set<string>): map<string, Value>
    requires keys <= s.variables.Keys
  {
    map k | k in vars.Keys + keys ::
      if k in keys then Combine(StrategyOf(s, k), Lookup(vars, k), s.variables[k]) else vars[k]
  }

  lemma MergeNoKey(vars: map<string, Value>, s: Scope)
    ensures MergeKeys(vars, s, {}) == vars
  {
  }

  lemma MergeNextKey(vars: map<string, Value>, s: Scope, keys: set<string>, k: string, m: map<string, Value>)
    requires keys <= s.variables.Keys && k in s.variables && k !in keys && m == MergeKeys(vars, s, keys)
    ensures m[k := Combine(StrategyOf(s, k), Lookup(m, k), s.variables[k])] == MergeKeys(vars, s, keys + {k})
  {
  }

  function MergeInOrder(vars: map<string, Value>, scopes: map<nat, Scope>, ids: seq<nat>): map<string, Value>
    requires forall id :: id in ids ==> id in scopes
  {
    if ids == [] then vars
    else MergeScope(MergeInOrder(vars, scopes, ids[..|ids| - 1]), scopes[ids[|ids| - 1]])
  }

  predicate Ascending(ids: seq<nat>) {
    forall i, j :: 0 <= i < j < |ids| ==> ids[i] < ids[j]
  }

  /** `ids` lists exactly the branches, in ascending order. */
  ghost predicate Lists(ids: seq<nat>, branches: set<nat>) {
    Ascending(ids) && forall id :: id in ids <==> id in branches
  }

  lemma {:induction false} ListsUnique(a: seq<nat>, b: seq<nat>, branches: set<nat>)
    requires Lists(a, branches) && Lists(b, branches)
    ensures a == b
    decreases |a|
  {
    assert (a != [] ==> a[0] in branches) && (b != [] ==> b[0] in branches);
    if a != [] && b != [] {
      var x, y := a[|a| - 1], b[|b| - 1];
      assert x in b && y in a;
      assert x == y;
      var a1, b1 := a[..|a| - 1], b[..|b| - 1];
      forall id
        ensures id in a1 <==> id in branches - {x}
        ensures id in b1 <==> id in branches - {x}
      {
        assert a == a1 + [x] && b == b1 + [y];
      }
      ListsUnique(a1, b1, branches - {x});
      assert a == a1 + [x] && b == b1 + [y];
    }
  }

  ghost predicate MergesTo(c: View, r: View) {
    exists ids :: Lists(ids, c.scopes.Keys) && r == View(MergeInOrder(c.variables, c.scopes, ids), map[], None, None)
  }

  /** The merge is determined: hash order does not show. */
  lemma MergeDetermined(c: View, r1: View, r2: View)
    requires MergesTo(c, r1) && MergesTo(c, r2)
    ensures r1 == r2
  {
    var a :| Lists(a, c.scopes.Keys) && r1 == View(MergeInOrder(c.variables, c.scopes, a), map[], None, None);
    var b :| Lists(b, c.scopes.Keys) && r2 == View(MergeInOrder(c.variables, c.scopes, b), map[], None, None);
    ListsUnique(a, b, c.scopes.Keys);
  }

  // ── The context object ──────────────────────────────────────────

  method InsertAscending(ids: seq<nat>, id: nat) returns (r: seq<nat>)
    requires Ascending(ids) && id !in ids
    ensures Ascending(r) && forall x :: x in r <==> x == id || x in ids
  {
    var i := |ids|;
    while i > 0 && ids[i - 1] > id
      invariant 0 <= i <= |ids| && forall k :: i <= k < |ids| ==> ids[k] > id
    {
      i := i - 1;
    }
    InsertedIsAscending(ids, i, id);
    r := ids[..i] + [id] + ids[i..];
  }

  lemma InsertedIsAscending(ids: seq<nat>, i: nat, id: nat)
    requires Ascending(ids) && id !in ids && i <= |ids|
    requires (forall k :: i <= k < |ids| ==> ids[k] > id) && (i > 0 ==> ids[i - 1] <= id)
    ensures var r := ids[..i] + [id] + ids[i..]; Ascending(r) && forall x :: x in r <==> x == id || x in ids
  {
    assert forall k :: 0 <= k < i ==> ids[k] < id by {
      assert i > 0 ==> ids[i - 1] in ids;
    }
    AscendingConcat(ids[..i], [id]);
    AscendingConcat(ids[..i] + [id], ids[i..]);
    assert ids == ids[..i] + ids[i..];
  }

  lemma AscendingConcat(a: seq<nat>, b: seq<nat>)
    requires Ascending(a) && Ascending(b)
    requires forall i, j :: 0 <= i < |a| && 0 <= j < |b| ==> a[i] < b[j]
    ensures Ascending(a + b)
  {
  }

  class ExecutionContext {
    var variables: map<string, Value>
    var branchScopes: map<nat, Scope>
    var parentScope: Option<Scope>
    var activeBranch: Option<nat>

    ghost function Now(): View
      reads this
    {
      View(variables, branchScopes, parentScope, activeBranch)
    }

    constructor ()
      ensures Now() == View(map[], map[], None, None)
    {
      variables, branchScopes, parentScope, activeBranch := map[], map[], None, None;
    }

    method Read(key: string) returns (r: Option<Value>)
      ensures r == Get(Now(), key)
    {
      if activeBranch.Some? && activeBranch.value in branchScopes {
        var s := branchScopes[activeBranch.value];
        if key in s.variables {
          return Some(s.variables[key]);
        }
      }
      if parentScope.Some? && key in parentScope.value.variables {
        return Some(parentScope.value.variables[key]);
      }
      r := Lookup(variables, key);
    }

    method Write(key: string, value: Value)
      modifies this
      ensures Now() == Set(old(Now()), key, value)
      ensures variables == if old(activeBranch).None? then old(variables)[key := value] else old(variables)
    {
      if activeBranch.Some? {
        var b := activeBranch.value;
        var s := if b in branchScopes then branchScopes[b] else EmptyScope;
        branchScopes := branchScopes[b := s.(variables := s.variables[key := value])];
      } else {
        variables := variables[key := value];
      }
    }

    method StartParallel()
      modifies this
      ensures Now() == EnterParallel(old(Now()))
      ensures variables == old(variables) && branchScopes == map[] && activeBranch == None
      ensures parentScope == Some(Scope(old(variables), map[]))
    {
      parentScope := Some(Scope(variables, map[]));
      branchScopes := map[];
      activeBranch := None;
    }

    method SwitchTo(b: nat)
      modifies this
      ensures Now() == SetBranch(old(Now()), b)
    {
      activeBranch := Some(b);
      if b !in branchScopes {
        branchScopes := branchScopes[b := EmptyScope];
      }
    }

    method Leave()
      modifies this`activeBranch
      ensures Now() == old(Now()).(active := None)
    {
      activeBranch := None;
    }

    method PutScope(b: nat, s: Scope)
      modifies this`branchScopes
      ensures Now() == old(Now()).(scopes := old(branchScopes)[b := s])
    {
      branchScopes := branchScopes[b := s];
    }

    method TakeScope(b: nat) returns (r: Option<Scope>)
      modifies this`branchScopes
      ensures r == if b in old(branchScopes) then Some(old(branchScopes)[b]) else None
      ensures Now() == old(Now()).(scopes := old(branchScopes) - {b})
    {
      r := if b in branchScopes then Some(branchScopes[b]) else None;
      branchScopes := branchScopes - {b};
    }

    method UseStrategy(key: string, strategy: MergeStrategy)
      modifies this
      ensures Now() == SetStrategy(old(Now()), key, strategy)
    {
      if activeBranch.Some? {
        var b := activeBranch.value;
        var s := if b in branchScopes then branchScopes[b] else EmptyScope;
        branchScopes := branchScopes[b := s.(strategies := s.strategies[key := strategy])];
      }
    }

    /** The branch ids leave the hash map in any order and are sorted. */
    method SortedIds() returns (ids: seq<nat>)
      ensures Lists(ids, branchScopes.Keys)
    {
      ids := [];
      var left := branchScopes.Keys;
      while left != {}
        invariant left <= branchScopes.Keys && Lists(ids, branchScopes.Keys - left)
        decreases |left|
      {
        var id :| id in left;
        ids := InsertAscending(ids, id);
        left := left - {id};
      }
    }

    /** Merges one scope; its keys come in any order. */
    method MergeOne(s: Scope)
      modifies this`variables
      ensures variables == MergeScope(old(variables), s)
    {
      hide Combine, StrategyOf, MergeKeys, Lookup;
      var left := s.variables.Keys;
      ghost var before, done := variables, {};
      MergeNoKey(before, s);
      while left != {}
        invariant done !! left && done + left == s.variables.Keys && variables == MergeKeys(before, s, done)
        decreases |left|
      {
        var k :| k in left;
        MergeNextKey(before, s, done, k, variables);
        variables := variables[k := Combine(StrategyOf(s, k), Lookup(variables, k), s.variables[k])];
        left, done := left - {k}, done + {k};
      }
      assert done == s.variables.Keys;
    }

    method MergeBranches()
      modifies this
      ensures MergesTo(old(Now()), Now())
      ensures branchScopes == map[] && parentScope == None && activeBranch == None
    {
      var ids := SortedIds();
      var scopes := branchScopes;
      ghost var before := variables;
      branchScopes := map[];
      for i := 0 to |ids|
        invariant branchScopes == map[] && (forall id :: id in ids ==> id in scopes)
        invariant variables == MergeInOrder(before, scopes, ids[..i])
      {
        assert ids[..i + 1][..i] == ids[..i];
        MergeOne(scopes[ids[i]]);
      }
      assert ids[..|ids|] == ids;
      parentScope := None;
      activeBranch := None;
    }
  }

  // ── What the merge of a key amounts to ──────────────────────────

  datatype Write = Write(strategy: MergeStrategy, value: Value)

  /** What the branches wrote to a key, in branch order. */
  function Writes(scopes: map<nat, Scope>, ids: seq<nat>, key: string): seq<Write>
    requires forall id :: id in ids ==> id in scopes
  {
    if ids == [] then []
    else
      var rest, s := Writes(scopes, ids[..|ids| - 1], key), scopes[ids[|ids| - 1]];
      if key in s.variables then rest + [Write(StrategyOf(s, key), s.variables[key])] else rest
  }

  function FoldKey(existing: Option<Value>, ws: seq<Write>): Option<Value> {
    if ws == [] then existing
    else
      var last := ws[|ws| - 1];
      Some(Combine(last.strategy, FoldKey(existing, ws[..|ws| - 1]), last.value))
  }

  /** The merge is, key by key, a fold over the branches that wrote the key. */
  lemma {:induction false} MergePerKey(vars: map<string, Value>, scopes: map<nat, Scope>, ids: seq<nat>, key: string)
    requires forall id :: id in ids ==> id in scopes
    ensures Lookup(MergeInOrder(vars, scopes, ids), key) == FoldKey(Lookup(vars, key), Writes(scopes, ids, key))
  {
    if ids != [] {
      MergePerKey(vars, scopes, ids[..|ids| - 1], key);
      var s := scopes[ids[|ids| - 1]];
      if key in s.variables {
        var ws := Writes(scopes, ids[..|ids| - 1], key);
        assert (ws + [Write(StrategyOf(s, key), s.variables[key])])[..|ws|] == ws;
      }
    }
  }

  ghost predicate AllUse(ws: seq<Write>, strategy: MergeStrategy) {
    forall i :: 0 <= i < |ws| ==> ws[i].strategy == strategy
  }

  /** `Last`: the highest branch that wrote wins, whatever the others asked for. */
  lemma LastWins(existing: Option<Value>, ws: seq<Write>)
    requires ws != [] && ws[|ws| - 1].strategy == Last
    ensures FoldKey(existing, ws) == Some(ws[|ws| - 1].value)
  {
  }

  /** `First`: the value from before wins, else the lowest branch that wrote. */
  lemma {:induction false} FirstWins(existing: Option<Value>, ws: seq<Write>)
    requires ws != [] && AllUse(ws, First)
    ensures FoldKey(existing, ws) == if existing.Some? then existing else Some(ws[0].value)
  {
    if |ws| > 1 {
      FirstWins(existing, ws[..|ws| - 1]);
    }
  }

  // Where all branches use one strategy, the value from before counts as the first contribution.

  function Contributions(existing: Option<Value>, ws: seq<Write>): seq<Value> {
    if ws == [] then (if existing.Some? then [existing.value] else [])
    else Contributions(existing, ws[..|ws| - 1]) + [ws[|ws| - 1].value]
  }

  function FoldValues(strategy: MergeStrategy, cs: seq<Value>): Option<Value> {
    if cs == [] then None
    else Some(Combine(strategy, FoldValues(strategy, cs[..|cs| - 1]), cs[|cs| - 1]))
  }

  lemma {:induction false} FoldsAgree(strategy: MergeStrategy, existing: Option<Value>, ws: seq<Write>)
    requires AllUse(ws, strategy)
    ensures FoldKey(existing, ws) == FoldValues(strategy, Contributions(existing, ws))
  {
    if ws != [] {
      FoldsAgree(strategy, existing, ws[..|ws| - 1]);
      var cs := Contributions(existing, ws);
      assert cs[..|cs| - 1] == Contributions(existing, ws[..|ws| - 1]);
    } else if existing.Some? {
      assert [existing.value][..0] == [];
    }
  }

  // ── Sum ─────────────────────────────────────────────────────────

  ghost predicate AllInts(cs: seq<Value>) {
    forall i :: 0 <= i < |cs| ==> cs[i].Int?
  }

  function Total(cs: seq<Value>): int {
    if cs == [] then 0
    else Total(cs[..|cs| - 1]) + match cs[|cs| - 1] case Int(i) => i case _ => 0
  }

  predicate InRange(x: int) {
    I64_MIN <= x <= I64_MAX
  }

  /** The contributions that find no room: the running total without the dropped ones before
      them, and with them, leaves the 64-bit range. */
  function Dropped(cs: seq<Value>): seq<Value> {
    if |cs| <= 1 then []
    else
      var front := cs[..|cs| - 1];
      var rest, last := Dropped(front), cs[|cs| - 1];
      if last.Int? && !InRange(Total(front) - Total(rest) + last.i) then rest + [last] else rest
  }

  /** No sum of a first few contributions leaves the 64-bit range. */
  ghost predicate NoOverflow(cs: seq<Value>) {
    forall i :: 0 < i <= |cs| ==> InRange(Total(cs[..i]))
  }

  lemma TotalNext(cs: seq<Value>, v: Value)
    ensures Total(cs + [v]) == Total(cs) + match v case Int(i) => i case _ => 0
  {
    assert (cs + [v])[..|cs|] == cs;
  }

  lemma {:induction false} SumOfValues(cs: seq<Value>)
    requires cs != [] && AllInts(cs)
    ensures FoldValues(Sum, cs) == Some(Int(Total(cs) - Total(Dropped(cs))))
  {
    var front, last := cs[..|cs| - 1], cs[|cs| - 1];
    if |cs| == 1 {
      assert front == [];
    } else {
      SumOfValues(front);
      assert last.Int?;
      TotalNext(Dropped(front), last);
    }
  }

  /** `Sum` of integers, with or without a value from before: what finds no room is dropped, and the
      result is the exact total if and only if what was dropped adds up to nothing. */
  lemma SumDropsOverflow(existing: Option<Value>, ws: seq<Write>)
    requires AllUse(ws, Sum)
    requires var cs := Contributions(existing, ws); cs != [] && AllInts(cs)
    ensures var cs := Contributions(existing, ws);
      && FoldKey(existing, ws) == Some(Int(Total(cs) - Total(Dropped(cs))))
      && (FoldKey(existing, ws) == Some(Int(Total(cs))) <==> Total(Dropped(cs)) == 0)
  {
    FoldsAgree(Sum, existing, ws);
    SumOfValues(Contributions(existing, ws));
  }

  /** Nothing is dropped exactly if no partial sum overflows. */
  lemma {:induction false} NothingDropped(cs: seq<Value>)
    requires cs != [] && AllInts(cs) && InRange(cs[0].i)
    ensures Dropped(cs) == [] <==> NoOverflow(cs)
  {
    assert cs[..|cs|] == cs;
    if |cs| == 1 {
      TotalNext([], cs[0]);
      assert cs == [] + [cs[0]];
    } else {
      var front, last := cs[..|cs| - 1], cs[|cs| - 1];
      NothingDropped(front);
      TotalNext(front, last);
      assert cs == front + [last];
      assert forall i :: 0 < i <= |front| ==> front[..i] == cs[..i];
      if NoOverflow(front) && InRange(Total(cs)) {
        forall i | 0 < i <= |cs|
          ensures InRange(Total(cs[..i]))
        {
          if i <= |front| {
            assert front[..i] == cs[..i];
          }
        }
      }
      if NoOverflow(cs) {
        forall i | 0 < i <= |front|
          ensures InRange(Total(front[..i]))
        {
          assert front[..i] == cs[..i];
        }
        assert InRange(Total(cs[..|cs|]));
      }
    }
  }

  /** Without an overflow the sum is the exact total. */
  lemma SumIsTotal(existing: Option<Value>, ws: seq<Write>)
    requires AllUse(ws, Sum)
    requires var cs := Contributions(existing, ws); cs != [] && AllInts(cs) && NoOverflow(cs)
    ensures FoldKey(existing, ws) == Some(Int(Total(Contributions(existing, ws))))
  {
    var cs := Contributions(existing, ws);
    TotalNext([], cs[0]);
    assert cs[..1] == [] + [cs[0]];
    assert InRange(Total(cs[..1]));
    NothingDropped(cs);
    SumDropsOverflow(existing, ws);
  }

  // ── Concat ──────────────────────────────────────────────────────

  function JoinedText(cs: seq<Value>): string {
    if cs == [] then ""
    else JoinedText(cs[..|cs| - 1]) + match cs[|cs| - 1] case Str(t) => t case _ => ""
  }

  lemma {:induction false} TextOfValues(cs: seq<Value>)
    requires cs != [] && forall i :: 0 <= i < |cs| ==> cs[i].Str?
    ensures FoldValues(Concat, cs) == Some(Str(JoinedText(cs)))
  {
    if |cs| > 1 {
      TextOfValues(cs[..|cs| - 1]);
    } else {
      assert cs[..|cs| - 1] == [] && "" + cs[0].s == cs[0].s;
    }
  }

  /** `Concat` of strings is in branch order, after the value from before if there is one. */
  lemma ConcatTextIsInOrder(existing: Option<Value>, ws: seq<Write>)
    requires AllUse(ws, Concat)
    requires var cs := Contributions(existing, ws); cs != [] && forall i :: 0 <= i < |cs| ==> cs[i].Str?
    ensures FoldKey(existing, ws) == Some(Str(JoinedText(Contributions(existing, ws))))
  {
    FoldsAgree(Concat, existing, ws);
    TextOfValues(Contributions(existing, ws));
  }

  function Joined(cs: seq<Value>): seq<Value> {
    if cs == [] then []
    else Joined(cs[..|cs| - 1]) + match cs[|cs| - 1] case Array(items) => items case _ => []
  }

  lemma {:induction false} ItemsOfValues(cs: seq<Value>)
    requires cs != [] && forall i :: 0 <= i < |cs| ==> cs[i].Array?
    ensures FoldValues(Concat, cs) == Some(Array(Joined(cs)))
  {
    if |cs| > 1 {
      ItemsOfValues(cs[..|cs| - 1]);
    } else {
      assert cs[..|cs| - 1] == [] && [] + cs[0].items == cs[0].items;
    }
  }

  /** `Concat` of arrays is in branch order, after the value from before if there is one. */
  lemma ConcatIsInOrder(existing: Option<Value>, ws: seq<Write>)
    requires AllUse(ws, Concat)
    requires var cs := Contributions(existing, ws); cs != [] && forall i :: 0 <= i < |cs| ==> cs[i].Array?
    ensures FoldKey(existing, ws) == Some(Array(Joined(Contributions(existing, ws))))
  {
    FoldsAgree(Concat, existing, ws);
    ItemsOfValues(Contributions(existing, ws));
  }

  /** No partial sum of the integers before the first float overflows. */
  ghost predicate IntsFit(cs: seq<Value>) {
    forall k :: 0 <= k <= |cs| && AllInts(cs[..k]) ==> I64_MIN <= Total(cs[..k]) <= I64_MAX
  }

  /** `Sum` of numbers in general: their sum, a float as soon as one of them is. */
  lemma SumOfNumbers(existing: Option<Value>, ws: seq<Write>)
    requires AllUse(ws, Sum)
    requires var cs := Contributions(existing, ws); cs != [] && AllNumbers(cs) && IntsFit(cs)
    ensures var cs, r := Contributions(existing, ws), FoldKey(existing, ws);
      && r.Some? && AsF64(r.value) == Some(SumOf(cs))
      && (r.value.Float? <==> exists i :: 0 <= i < |cs| && cs[i].Float?)
  {
    FoldsAgree(Sum, existing, ws);
    MixedSum(Contributions(existing, ws));
  }

  lemma {:induction false} MixedSum(cs: seq<Value>)
    requires cs != [] && AllNumbers(cs) && IntsFit(cs)
    ensures var r := FoldValues(Sum, cs);
      && r.Some? && AsF64(r.value) == Some(SumOf(cs)) && (r.value.Int? <==> AllInts(cs))
      && (r.value.Int? ==> r.value.i == Total(cs)) && (r.value.Int? || r.value.Float?)
  {
    var front, last := cs[..|cs| - 1], cs[|cs| - 1];
    assert cs == front + [last] && AsF64(last).Some?;
    assert cs[..|cs|] == cs && forall k :: 0 <= k <= |front| ==> front[..k] == cs[..k];
    if front != [] {
      assert forall i :: 0 <= i < |front| ==> front[i] == cs[i];
      MixedSum(front);
    } else {
      assert SumOf(cs) == SumOf([]) + Number(last) && FoldValues(Sum, front) == None;
    }
  }

  // ── Min and Max ─────────────────────────────────────────────────

  ghost predicate AllNumbers(cs: seq<Value>) {
    forall i :: 0 <= i < |cs| ==> AsF64(cs[i]).Some?
  }

  function Number(v: Value): real {
    var n := AsF64(v);
    if n.Some? then n.value else 0.0
  }

  lemma {:induction false} MinOfValues(cs: seq<Value>)
    requires cs != [] && AllNumbers(cs)
    ensures var r := FoldValues(Min, cs);
      r.Some? && r.value in cs && forall i :: 0 <= i < |cs| ==> Number(r.value) <= Number(cs[i])
  {
    if |cs| > 1 {
      var front := cs[..|cs| - 1];
      MinOfValues(front);
      assert cs == front + [cs[|cs| - 1]];
      assert forall i :: 0 <= i < |front| ==> cs[i] == front[i];
      assert AsF64(cs[|cs| - 1]).Some?;
      var i :| 0 <= i < |front| && front[i] == FoldValues(Min, front).value;
      assert AsF64(cs[i]).Some?;
    } else {
      assert cs[..|cs| - 1] == [];
    }
  }

  lemma {:induction false} MaxOfValues(cs: seq<Value>)
    requires cs != [] && AllNumbers(cs)
    ensures var r := FoldValues(Max, cs);
      r.Some? && r.value in cs && forall i :: 0 <= i < |cs| ==> Number(r.value) >= Number(cs[i])
  {
    if |cs| > 1 {
      var front := cs[..|cs| - 1];
      MaxOfValues(front);
      assert cs == front + [cs[|cs| - 1]];
      assert forall i :: 0 <= i < |front| ==> cs[i] == front[i];
      assert AsF64(cs[|cs| - 1]).Some?;
      var i :| 0 <= i < |front| && front[i] == FoldValues(Max, front).value;
      assert AsF64(cs[i]).Some?;
    } else {
      assert cs[..|cs| - 1] == [];
    }
  }

  /** `Min` of numbers is one of them and below all of them; a value from before takes part. */
  lemma MinIsLeast(existing: Option<Value>, ws: seq<Write>)
    requires AllUse(ws, Min)
    requires var cs := Contributions(existing, ws); cs != [] && AllNumbers(cs)
    ensures var cs, r := Contributions(existing, ws), FoldKey(existing, ws);
      r.Some? && r.value in cs && forall i :: 0 <= i < |cs| ==> Number(r.value) <= Number(cs[i])
  {
    FoldsAgree(Min, existing, ws);
    MinOfValues(Contributions(existing, ws));
  }

  /** `Max` of numbers is one of them and above all of them; a value from before takes part. */
  lemma MaxIsGreatest(existing: Option<Value>, ws: seq<Write>)
    requires AllUse(ws, Max)
    requires var cs := Contributions(existing, ws); cs != [] && AllNumbers(cs)
    ensures var cs, r := Contributions(existing, ws), FoldKey(existing, ws);
      r.Some? && r.value in cs && forall i :: 0 <= i < |cs| ==> Number(r.value) >= Number(cs[i])
  {
    FoldsAgree(Max, existing, ws);
    MaxOfValues(Contributions(existing, ws));
  }

  // ── Avg ─────────────────────────────────────────────────────────

  function PowerOfTwo(n: nat): (r: real)
    ensures r >= 1.0
  {
    if n == 0 then 1.0 else 2.0 * PowerOfTwo(n - 1)
  }

  function SumOf(cs: seq<Value>): real {
    if cs == [] then 0.0 else SumOf(cs[..|cs| - 1]) + Number(cs[|cs| - 1])
  }

  /** Each contribution counts twice as much as the one before, the first two the same. */
  function Doubling(cs: seq<Value>): real {
    if cs == [] then 0.0
    else if |cs| == 1 then Number(cs[0])
    else Doubling(cs[..|cs| - 1]) + PowerOfTwo(|cs| - 2) * Number(cs[|cs| - 1])
  }

  lemma {:induction false} AvgOfValues(cs: seq<Value>)
    requires cs != [] && AllNumbers(cs)
    ensures var r := FoldValues(Avg, cs);
      && r.Some? && AsF64(r.value).Some? && (|cs| == 1 ==> r.value == cs[0]) && (|cs| > 1 ==> r.value.Float?)
      && Number(r.value) == Doubling(cs) / PowerOfTwo(|cs| - 1)
  {
    hide Doubling, PowerOfTwo, Combine;
    var front, last := cs[..|cs| - 1], cs[|cs| - 1];
    assert AsF64(last).Some?;
    if |cs| == 1 {
      FirstAlone(cs);
    } else {
      AvgOfValues(front);
      HalfWay(FoldValues(Avg, front).value, last);
      DoublingOn(cs);
    }
  }

  lemma FirstAlone(cs: seq<Value>)
    requires |cs| == 1
    ensures FoldValues(Avg, cs) == Some(cs[0]) && Doubling(cs) / PowerOfTwo(0) == Number(cs[0])
  {
    assert cs[..0] == [];
  }

  lemma DoublingOn(cs: seq<Value>)
    requires |cs| > 1
    ensures var front := cs[..|cs| - 1];
      Doubling(cs) / PowerOfTwo(|cs| - 1) == (Doubling(front) / PowerOfTwo(|front| - 1) + Number(cs[|cs| - 1])) / 2.0
  {
    HalfOf(Doubling(cs[..|cs| - 1]), PowerOfTwo(|cs| - 2), Number(cs[|cs| - 1]));
  }

  lemma HalfWay(e: Value, v: Value)
    requires AsF64(e).Some? && AsF64(v).Some?
    ensures Combine(Avg, Some(e), v) == Float((Number(e) + Number(v)) / 2.0)
  {
  }

  lemma HalfOf(d: real, p: real, x: real)
    requires p > 0.0
    ensures (d / p + x) / 2.0 == (d + p * x) / (2.0 * p)
  {
    var q := d / p;
    assert d == q * p;
    assert (d + p * x) == (q + x) * p;
    Cancel(q + x, p);
  }

  lemma Cancel(y: real, p: real)
    requires p > 0.0
    ensures (y * p) / (2.0 * p) == y / 2.0
  {
    var z := (y * p) / (2.0 * p);
    assert z * (2.0 * p) == y * p;
    assert (2.0 * z - y) * p == 0.0;
  }

  /** The doubling sum times the number of contributions is their sum times the power of two. */
  ghost predicate Balanced(cs: seq<Value>)
    requires cs != []
  {
    |cs| as real * Doubling(cs) == PowerOfTwo(|cs| - 1) * SumOf(cs)
  }

  ghost function Mean(cs: seq<Value>): real
    requires cs != []
  {
    SumOf(cs) / |cs| as real
  }

  lemma SameQuotient(a: real, p: real, b: real, q: real)
    requires p > 0.0 && q > 0.0
    ensures a / p == b / q <==> q * a == p * b
  {
    var x, y := a / p, b / q;
    assert a == x * p && b == y * q;
    assert q * a - p * b == (p * q) * (x - y);
    assert p * q > 0.0;
  }

  lemma MeanIffBalanced(cs: seq<Value>)
    requires cs != []
    ensures Doubling(cs) / PowerOfTwo(|cs| - 1) == Mean(cs) <==> Balanced(cs)
  {
    hide Doubling, PowerOfTwo, SumOf;
    SameQuotient(Doubling(cs), PowerOfTwo(|cs| - 1), SumOf(cs), |cs| as real);
  }

  /** `Avg` halves at every branch: for any contributions, a value from before included, the result
      is their doubling sum over a power of two. It is their mean if and only if they are balanced. */
  lemma AvgIsHalving(existing: Option<Value>, ws: seq<Write>)
    requires AllUse(ws, Avg)
    requires var cs := Contributions(existing, ws); cs != [] && AllNumbers(cs)
    ensures var cs, r := Contributions(existing, ws), FoldKey(existing, ws);
      && r.Some? && AsF64(r.value).Some? && (|cs| == 1 ==> r.value == cs[0]) && (|cs| > 1 ==> r.value.Float?)
      && Number(r.value) == Doubling(cs) / PowerOfTwo(|cs| - 1)
      && (Number(r.value) == Mean(cs) <==> Balanced(cs))
  {
    hide Balanced, Mean, Doubling, PowerOfTwo, FoldValues, Combine;
    FoldsAgree(Avg, existing, ws);
    AvgOfValues(Contributions(existing, ws));
    MeanIffBalanced(Contributions(existing, ws));
  }

  /** One contribution or two are always balanced, and three are exactly if the last one is the
      mean of the first two. */
  lemma BalancedFew(cs: seq<Value>)
    requires 1 <= |cs| <= 3
    ensures Balanced(cs) <==> |cs| == 3 ==> 2.0 * Number(cs[2]) == Number(cs[0]) + Number(cs[1])
  {
    if |cs| == 1 {
      SumsNext([], cs[0]);
      assert cs == [] + [cs[0]];
    } else {
      PairSums(cs[0], cs[1]);
      if |cs| == 2 {
        assert cs == [cs[0], cs[1]];
      } else {
        SumsNext([cs[0], cs[1]], cs[2]);
        assert cs == [cs[0], cs[1]] + [cs[2]];
        assert PowerOfTwo(0) == 1.0 && PowerOfTwo(1) == 2.0 && PowerOfTwo(2) == 4.0;
      }
    }
  }

  /** From the third contribution on there is exactly one value that balances what came before: twice the sum
      less the weighted average so far, shared out. If that was balanced, it is their mean. */
  lemma BalancedNext(cs: seq<Value>, v: Value)
    requires |cs| >= 2
    ensures var n, avg := |cs| as real, Doubling(cs) / PowerOfTwo(|cs| - 1);
      && (Balanced(cs + [v]) <==> Number(v) == NextShare(n, SumOf(cs), avg))
      && (Balanced(cs) ==> (Balanced(cs + [v]) <==> Number(v) == Mean(cs)))
  {
    hide Doubling, SumOf, PowerOfTwo, Number, NextShare, Balanced;
    BalancedAs(cs, v);
    MeanIffBalanced(cs);
    WeighsNext(|cs| as real, PowerOfTwo(|cs| - 1), Doubling(cs), SumOf(cs), Number(v));
    MeanShare(|cs| as real, SumOf(cs));
  }

  lemma BalancedAs(cs: seq<Value>, v: Value)
    requires |cs| >= 2
    ensures Balanced(cs + [v]) <==> Weighs(|cs| as real, PowerOfTwo(|cs| - 1), Doubling(cs), SumOf(cs), Number(v))
  {
    hide Doubling, SumOf, PowerOfTwo, Number;
    var ds := cs + [v];
    assert Balanced(ds) <==> Equal(|ds| as real, Doubling(ds), PowerOfTwo(|ds| - 1), SumOf(ds));
    hide Balanced, Equal;
    SumsNext(cs, v);
    TwoPowers(|cs| - 1);
    assert |ds| as real == |cs| as real + 1.0;
  }

  ghost predicate Equal(n: real, d: real, p: real, s: real) {
    n * d == p * s
  }

  ghost predicate Weighs(n: real, p: real, d: real, s: real, x: real) {
    Equal(n + 1.0, d + p * x, 2.0 * p, s + x)
  }

  function NextShare(n: real, sum: real, avg: real): real
    requires n >= 2.0
  {
    (2.0 * sum - (n + 1.0) * avg) / (n - 1.0)
  }

  lemma TwoPowers(n: nat)
    ensures PowerOfTwo(n + 1) == 2.0 * PowerOfTwo(n)
  {
  }

  lemma WeighsNext(n: real, p: real, d: real, s: real, x: real)
    requires p > 0.0 && n >= 2.0
    ensures Weighs(n, p, d, s, x) <==> x == NextShare(n, s, d / p)
  {
    var h := d / p;
    assert d == h * p;
    Regroup(n, p, h, s, x);
    Scaled((n + 1.0) * (h + x), 2.0 * (s + x), p);
    SharesNext(n, s, h, x);
  }

  lemma Regroup(n: real, p: real, h: real, s: real, x: real)
    ensures (n + 1.0) * (h * p + p * x) == ((n + 1.0) * (h + x)) * p && (2.0 * p) * (s + x) == (2.0 * (s + x)) * p
  {
  }

  lemma SharesNext(n: real, s: real, h: real, x: real)
    requires n >= 2.0
    ensures (n + 1.0) * (h + x) == 2.0 * (s + x) <==> x == NextShare(n, s, h)
  {
    var a := 2.0 * s - (n + 1.0) * h;
    Shared(x, a, n - 1.0);
    assert (n + 1.0) * (h + x) - 2.0 * (s + x) == x * (n - 1.0) - a;
  }

  lemma MeanShare(n: real, s: real)
    requires n >= 2.0
    ensures NextShare(n, s, s / n) == s / n
  {
    var h := s / n;
    assert s == h * n;
    assert 2.0 * s - (n + 1.0) * h == h * (n - 1.0);
    Shared(h, h * (n - 1.0), n - 1.0);
  }

  lemma Scaled(a: real, b: real, p: real)
    requires p > 0.0
    ensures a * p == b * p <==> a == b
  {
    assert (a - b) * p == a * p - b * p;
  }

  lemma Shared(x: real, a: real, m: real)
    requires m > 0.0
    ensures x == a / m <==> x * m == a
  {
    var q := a / m;
    assert q * m == a;
    Scaled(x, q, m);
  }

  lemma SumsNext(cs: seq<Value>, v: Value)
    ensures SumOf(cs + [v]) == SumOf(cs) + Number(v)
    ensures Doubling(cs + [v]) == if cs == [] then Number(v) else Doubling(cs) + PowerOfTwo(|cs| - 1) * Number(v)
  {
    hide SumOf, Doubling, Number, PowerOfTwo;
    var ds := cs + [v];
    assert ds[..|cs|] == cs && ds[|ds| - 1] == v;
    SumsFront(ds, cs);
  }

  lemma SumsFront(ds: seq<Value>, cs: seq<Value>)
    requires ds != [] && cs == ds[..|ds| - 1]
    ensures SumOf(ds) == SumOf(cs) + Number(ds[|ds| - 1])
    ensures Doubling(ds) ==
            if cs == [] then Number(ds[0]) else Doubling(cs) + PowerOfTwo(|cs| - 1) * Number(ds[|ds| - 1])
  {
    hide Number, PowerOfTwo;
  }

  lemma PairSums(a: Value, b: Value)
    ensures SumOf([a, b]) == Doubling([a, b]) == Number(a) + Number(b)
  {
    SumsNext([], a);
    SumsNext([a], b);
    assert [] + [a] == [a] && [a] + [b] == [a, b];
  }

  /** Three branches and no value from before: 1, 2 and 4, say, give 2.75. */
  lemma AvgOfThree(a: real, b: real, c: real)
    ensures var ws := [Write(Avg, Float(a)), Write(Avg, Float(b)), Write(Avg, Float(c))];
      FoldKey(None, ws) == Some(Float((a + b + c) / 3.0)) <==> 2.0 * c == a + b
  {
    var ws := [Write(Avg, Float(a)), Write(Avg, Float(b)), Write(Avg, Float(c))];
    assert ws[..2] == [ws[0], ws[1]] && ws[..2][..1] == [ws[0]] && ws[..2][..1][..0] == [];
    assert FoldKey(None, ws[..2][..1]) == Some(Float(a));
    assert FoldKey(None, ws[..2]) == Some(Float((a + b) / 2.0));
    assert FoldKey(None, ws) == Some(Float(((a + b) / 2.0 + c) / 2.0));
  }

  // ── Branches do not see each other ──────────────────────────────

  datatype Op = ReadKey(key: string) | WriteKey(key: string, value: Value) | Choose(key: string, strategy: MergeStrategy)

  datatype BranchStep = BranchStep(branch: nat, op: Op)

  /** One step of a branch: make it the active one, then do the operation. */
  function Perform(c: View, s: BranchStep): View {
    var on := SetBranch(c, s.branch);
    match s.op
    case ReadKey(_) => on
    case WriteKey(key, value) => Set(on, key, value)
    case Choose(key, strategy) => SetStrategy(on, key, strategy)
  }

  function RunSteps(c: View, steps: seq<BranchStep>): View {
    if steps == [] then c else Perform(RunSteps(c, steps[..|steps| - 1]), steps[|steps| - 1])
  }

  /** The operations of one branch, in its own order. */
  function OpsOf(steps: seq<BranchStep>, b: nat): seq<Op> {
    if steps == [] then []
    else
      var rest, last := OpsOf(steps[..|steps| - 1], b), steps[|steps| - 1];
      if last.branch == b then rest + [last.op] else rest
  }

  /** What branch `b` reads, in its own order. */
  function ReadsOf(c: View, steps: seq<BranchStep>, b: nat): seq<Option<Value>> {
    if steps == [] then []
    else
      var before, last := steps[..|steps| - 1], steps[|steps| - 1];
      var rest := ReadsOf(c, before, b);
      if last.branch == b && last.op.ReadKey? then rest + [Get(SetBranch(RunSteps(c, before), b), last.op.key)] else rest
  }

  // A branch on its own: a scope, and what lies below it.

  function Alone(s: Scope, ops: seq<Op>): Scope {
    if ops == [] then s
    else
      var before := Alone(s, ops[..|ops| - 1]);
      match ops[|ops| - 1]
      case ReadKey(_) => before
      case WriteKey(key, value) => before.(variables := before.variables[key := value])
      case Choose(key, strategy) => before.(strategies := before.strategies[key := strategy])
  }

  function ReadsAlone(c: View, s: Scope, ops: seq<Op>): seq<Option<Value>> {
    if ops == [] then []
    else
      var before, last := ops[..|ops| - 1], ops[|ops| - 1];
      var rest := ReadsAlone(c, s, before);
      if last.ReadKey? then
        var own := Alone(s, before);
        rest + [if last.key in own.variables then Some(own.variables[last.key]) else Base(c, last.key)]
      else rest
  }

  function BranchesOf(steps: seq<BranchStep>): set<nat> {
    set s | s in steps :: s.branch
  }

  lemma OpsOfNext(steps: seq<BranchStep>, b: nat)
    requires steps != []
    ensures OpsOf(steps, b) != [] && steps[|steps| - 1].branch == b ==>
      var ops := OpsOf(steps, b);
      ops[..|ops| - 1] == OpsOf(steps[..|steps| - 1], b) && ops[|ops| - 1] == steps[|steps| - 1].op
  {
  }

  /** Every branch's scope is what the branch would have made alone. */
  lemma {:induction false} ScopesAreOwn(c: View, steps: seq<BranchStep>)
    ensures var r := RunSteps(c, steps);
      && r.variables == c.variables && r.parent == c.parent
      && r.scopes.Keys == c.scopes.Keys + BranchesOf(steps)
      && forall b :: ScopeOf(r, b) == Alone(ScopeOf(c, b), OpsOf(steps, b))
  {
    if steps != [] {
      var before, last := steps[..|steps| - 1], steps[|steps| - 1];
      ScopesAreOwn(c, before);
      assert steps == before + [last];
      assert BranchesOf(steps) == BranchesOf(before) + {last.branch};
      PerformIsLocal(RunSteps(c, before), last);
      forall b: nat {
        OpsOfNext(steps, b);
      }
    }
  }

  /** A step changes the scope of its own branch only. */
  lemma PerformIsLocal(c: View, s: BranchStep)
    ensures var r := Perform(c, s);
      && r.variables == c.variables && r.parent == c.parent && r.scopes.Keys == c.scopes.Keys + {s.branch}
      && (forall b :: b != s.branch ==> ScopeOf(r, b) == ScopeOf(c, b))
      && ScopeOf(r, s.branch) == Alone(ScopeOf(c, s.branch), [s.op])
  {
    assert [s.op][..0] == [];
  }

  /** A branch reads its own writes, the snapshot and the globals, and nothing else. */
  lemma {:induction false} ReadsAreOwn(c: View, steps: seq<BranchStep>, b: nat)
    ensures ReadsOf(c, steps, b) == ReadsAlone(c, ScopeOf(c, b), OpsOf(steps, b))
  {
    if steps != [] {
      var before, last := steps[..|steps| - 1], steps[|steps| - 1];
      ReadsAreOwn(c, before, b);
      if last.branch == b {
        OpsOfNext(steps, b);
        ScopesAreOwn(c, before);
        ReadIsLocal(c, RunSteps(c, before), b, last.op.key);
      }
    }
  }

  lemma ReadIsLocal(c: View, r: View, b: nat, key: string)
    requires r.variables == c.variables && r.parent == c.parent
    ensures Get(SetBranch(r, b), key) ==
            if key in ScopeOf(r, b).variables then Some(ScopeOf(r, b).variables[key]) else Base(c, key)
  {
  }

  /** Two interleavings with the same order within each branch cannot be told apart:
      same reads, same scopes, same merge. */
  lemma InterleavingIrrelevant(c: View, one: seq<BranchStep>, two: seq<BranchStep>)
    requires forall b :: OpsOf(one, b) == OpsOf(two, b)
    ensures forall b :: ReadsOf(c, one, b) == ReadsOf(c, two, b)
    ensures RunSteps(c, one).scopes == RunSteps(c, two).scopes
    ensures forall r :: MergesTo(RunSteps(c, one), r) <==> MergesTo(RunSteps(c, two), r)
  {
    forall b: nat
      ensures ReadsOf(c, one, b) == ReadsOf(c, two, b)
    {
      ReadsAreOwn(c, one, b);
      ReadsAreOwn(c, two, b);
    }
    SameScopes(c, one, two);
  }

  lemma SameScopes(c: View, one: seq<BranchStep>, two: seq<BranchStep>)
    requires forall b :: OpsOf(one, b) == OpsOf(two, b)
    ensures RunSteps(c, one).scopes == RunSteps(c, two).scopes
    ensures RunSteps(c, one).variables == RunSteps(c, two).variables
  {
    ScopesAreOwn(c, one);
    ScopesAreOwn(c, two);
    SameBranches(one, two);
    SameScopesByBranch(RunSteps(c, one), RunSteps(c, two));
  }

  lemma SameBranches(one: seq<BranchStep>, two: seq<BranchStep>)
    requires forall b :: OpsOf(one, b) == OpsOf(two, b)
    ensures BranchesOf(one) == BranchesOf(two)
  {
    forall b: nat
      ensures b in BranchesOf(one) <==> b in BranchesOf(two)
    {
      BranchHasOps(one, b);
      BranchHasOps(two, b);
    }
  }

  lemma SameScopesByBranch(p: View, q: View)
    requires p.scopes.Keys == q.scopes.Keys && forall b :: ScopeOf(p, b) == ScopeOf(q, b)
    ensures p.scopes == q.scopes
  {
    forall b | b in p.scopes
      ensures p.scopes[b] == q.scopes[b]
    {
      assert ScopeOf(p, b) == ScopeOf(q, b);
    }
  }

  lemma {:induction false} BranchHasOps(steps: seq<BranchStep>, b: nat)
    ensures b in BranchesOf(steps) <==> OpsOf(steps, b) != []
  {
    if steps != [] {
      BranchHasOps(steps[..|steps| - 1], b);
      assert steps == steps[..|steps| - 1] + [steps[|steps| - 1]];
    }
  }

  /** Threads that each run one branch on a copy and hand its scope back do what any
      interleaving in one context does. */
  lemma ForkJoin(c: View, steps: seq<BranchStep>, joined: View)
    requires joined.variables == c.variables
    requires joined.scopes.Keys == c.scopes.Keys + BranchesOf(steps)
    requires forall b :: b in joined.scopes ==> joined.scopes[b] == Alone(ScopeOf(c, b), OpsOf(steps, b))
    ensures joined.scopes == RunSteps(c, steps).scopes
    ensures forall r :: MergesTo(joined, r) <==> MergesTo(RunSteps(c, steps), r)
  {
    ScopesAreOwn(c, steps);
    var r := RunSteps(c, steps);
    forall b | b in r.scopes
      ensures joined.scopes[b] == r.scopes[b]
    {
      assert ScopeOf(r, b) == r.scopes[b];
    }
  }
}
