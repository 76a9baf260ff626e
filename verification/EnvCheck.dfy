/** The check that runs before an execution: it walks the subgraph call graph and reports the
    mandatory variables that the environment lacks. */
module EnvCheck {
  import opened Wrappers
  import opened Graphs
  import opened Env

  type Id = string

  datatype EnvDep = EnvDep(key: string, optional: bool)

  /** What the scans of a compiled plan yield. */
  datatype PlanScan = PlanScan(deps: seq<EnvDep>, subgraphs: seq<string>)

  /** `scan` is absent if the plan can be neither loaded nor compiled. */
  datatype Graph = Graph(name: string, scan: Option<PlanScan>)

  /** The stored graphs, and for each name the newest graph that has it. */
  datatype Catalog = Catalog(graphs: map<Id, Graph>, byName: map<string, Id>)

  datatype DispatchError = NotFound(input: string) | ExecutionFailed

  /** `path` is the chain of graph names that the source joins with arrows. */
  datatype Report = Report(path: seq<string>, missing: seq<string>)

  predicate Consistent(c: Catalog) {
    forall n :: n in c.byName ==> c.byName[n] in c.graphs
  }

  /** By name first, then by id. */
  function ResolveGraph(c: Catalog, input: string): Option<Id> {
    if input in c.byName then Some(c.byName[input])
    else if input in c.graphs then Some(input)
    else None
  }

  function MissingKeys(env: Env, deps: seq<EnvDep>): seq<string> {
    if deps == [] then []
    else
      var rest, d := MissingKeys(env, deps[..|deps| - 1]), deps[|deps| - 1];
      if !d.optional && GetSpec(env, d.key).None? then rest + [d.key] else rest
  }

  function Missing(c: Catalog, env: Env, id: Id): seq<string> {
    if id in c.graphs && c.graphs[id].scan.Some? then MissingKeys(env, c.graphs[id].scan.value.deps) else []
  }

  function CallArcs(c: Catalog): set<(Id, Id)> {
    set x, s | x in c.graphs && c.graphs[x].scan.Some? && s in c.graphs[x].scan.value.subgraphs
               && ResolveGraph(c, s).Some? :: (x, ResolveGraph(c, s).value)
  }

  /** The plan cannot be had, or calls a graph that does not exist. */
  predicate Broken(c: Catalog, id: Id) {
    id in c.graphs &&
    (c.graphs[id].scan.None? || exists s :: s in c.graphs[id].scan.value.subgraphs && ResolveGraph(c, s).None?)
  }

  /** A graph that can be called from `id` has the fault that the error tells of. */
  ghost predicate FailsAt(c: Catalog, id: Id, e: DispatchError) {
    exists x :: Reaches(CallArcs(c), id, x) && x in c.graphs &&
      match e
      case NotFound(s) => c.graphs[x].scan.Some? && s in c.graphs[x].scan.value.subgraphs && ResolveGraph(c, s).None?
      case ExecutionFailed => c.graphs[x].scan.None?
  }

  ghost predicate Fails(c: Catalog, name: string, e: DispatchError) {
    match ResolveGraph(c, name)
    case None => e == NotFound(name)
    case Some(id) => FailsAt(c, id, e)
  }

  ghost predicate ReachesBroken(c: Catalog, id: Id) {
    exists x :: Reaches(CallArcs(c), id, x) && Broken(c, x)
  }

  /** Each graph of the chain calls the next one. */
  ghost predicate CallChain(c: Catalog, chain: seq<Id>) {
    chain == [] ||
    var rest, last := chain[..|chain| - 1], chain[|chain| - 1];
    last in c.graphs && CallChain(c, rest) && (rest != [] ==> (rest[|rest| - 1], last) in CallArcs(c))
  }

  function NamesOf(c: Catalog, chain: seq<Id>): seq<string> {
    if chain == [] then []
    else
      var id := chain[|chain| - 1];
      NamesOf(c, chain[..|chain| - 1]) + [if id in c.graphs then c.graphs[id].name else ""]
  }

  ghost predicate CallsFromTo(c: Catalog, chain: seq<Id>, start: Id, id: Id) {
    CallChain(c, chain) && chain != [] && chain[0] == start && chain[|chain| - 1] == id
  }

  /** The report is about `id` and its path is a real chain of calls that starts with `start`. */
  ghost predicate ReportsOn(c: Catalog, env: Env, r: Report, id: Id, start: Id) {
    && r.missing != [] && r.missing == Missing(c, env, id)
    && exists chain :: CallsFromTo(c, chain, start, id) && r.path == NamesOf(c, chain)
  }

  // ── The parts, said outright ────────────────────────────────────

  /** A name stands for the newest graph that has it, and only without one for a graph of that id. */
  lemma NamesComeFirst(c: Catalog, input: string)
    ensures input in c.byName ==> ResolveGraph(c, input) == Some(c.byName[input])
    ensures input !in c.byName && input in c.graphs ==> ResolveGraph(c, input) == Some(input)
    ensures ResolveGraph(c, input).None? ==> input !in c.byName && input !in c.graphs
  {
  }

  /** The missing keys are those of mandatory dependencies for which no provider has a value at any level. */
  lemma {:induction false} MissingAre(env: Env, deps: seq<EnvDep>, key: string)
    ensures key in MissingKeys(env, deps) <==>
      (exists d :: d in deps && !d.optional && d.key == key) && forall v :: !Answered(env, key, v)
  {
    hide Answered;
    if deps != [] {
      var front, d := deps[..|deps| - 1], deps[|deps| - 1];
      MissingAre(env, front, key);
      assert deps == front + [d];
      if d.key == key {
        NoneAnswers(env, key);
      }
    }
  }

  /** They are listed in the order of the plan. */
  lemma {:induction false} MissingInOrder(env: Env, a: seq<EnvDep>, b: seq<EnvDep>)
    ensures MissingKeys(env, a + b) == MissingKeys(env, a) + MissingKeys(env, b)
  {
    if b == [] {
      assert a + b == a;
    } else {
      MissingInOrder(env, a, b[..|b| - 1]);
      assert (a + b)[..|a + b| - 1] == a + b[..|b| - 1] && (a + b)[|a + b| - 1] == b[|b| - 1];
    }
  }

  /** A chain is made of stored graphs, each of which calls the next. */
  lemma {:induction false} ChainSteps(c: Catalog, chain: seq<Id>, i: nat)
    requires CallChain(c, chain) && i < |chain|
    ensures chain[i] in c.graphs && (i + 1 < |chain| ==> (chain[i], chain[i + 1]) in CallArcs(c))
  {
    if i < |chain| - 1 {
      ChainSteps(c, chain[..|chain| - 1], i);
    }
  }

  /** The path of a report has the names of the graphs of its chain. */
  lemma {:induction false} NamesAt(c: Catalog, chain: seq<Id>, i: nat)
    requires i < |chain| && chain[i] in c.graphs
    ensures |NamesOf(c, chain)| == |chain| && NamesOf(c, chain)[i] == c.graphs[chain[i]].name
  {
    NamesLength(c, chain[..|chain| - 1]);
    if i < |chain| - 1 {
      NamesAt(c, chain[..|chain| - 1], i);
    }
  }

  lemma {:induction false} NamesLength(c: Catalog, chain: seq<Id>)
    ensures |NamesOf(c, chain)| == |chain|
  {
    if chain != [] {
      NamesLength(c, chain[..|chain| - 1]);
    }
  }

  // ── The depth-first search ──────────────────────────────────────

  ghost predicate NoneTwice(ids: seq<Id>) {
    forall i, j :: 0 <= i < j < |ids| ==> ids[i] != ids[j]
  }

  /** Everything called from `s` is in `t`, and nothing in `s` is broken. */
  ghost predicate Explored(c: Catalog, s: set<Id>, t: set<Id>) {
    && (forall x :: x in s ==> x in c.graphs && !Broken(c, x))
    && (forall x, y :: x in s && (x, y) in CallArcs(c) ==> y in t)
  }

  /** The reports are about these ids, each of them new, each once, and no new id with a
      missing key is left out. */
  ghost predicate ReportsExact(c: Catalog, env: Env, reports: seq<Report>, ids: seq<Id>, found: set<Id>, start: Id) {
    && |reports| == |ids| && NoneTwice(ids)
    && (forall k :: 0 <= k < |ids| ==> ids[k] in found && ReportsOn(c, env, reports[k], ids[k], start))
    && (forall x :: x in found && Missing(c, env, x) != [] ==> x in ids)
  }

  method ComputeMissing(env: Env, deps: seq<EnvDep>) returns (missing: seq<string>)
    ensures missing == MissingKeys(env, deps)
  {
    missing := [];
    for i := 0 to |deps|
      invariant missing == MissingKeys(env, deps[..i])
    {
      assert deps[..i + 1][..i] == deps[..i];
      var v := Get(env, deps[i].key);
      if !deps[i].optional && v.None? {
        missing := missing + [deps[i].key];
      }
    }
    assert deps[..|deps|] == deps;
  }

  lemma ReportsConcat(c: Catalog, env: Env, a: seq<Report>, idsA: seq<Id>, foundA: set<Id>,
                      b: seq<Report>, idsB: seq<Id>, foundB: set<Id>, start: Id)
    requires ReportsExact(c, env, a, idsA, foundA, start) && ReportsExact(c, env, b, idsB, foundB, start)
    requires foundA !! foundB
    ensures ReportsExact(c, env, a + b, idsA + idsB, foundA + foundB, start)
  {
    var ids, reports := idsA + idsB, a + b;
    forall k | 0 <= k < |ids|
      ensures ids[k] in foundA + foundB && ReportsOn(c, env, reports[k], ids[k], start)
    {
      if k < |idsA| {
        assert idsA[k] in foundA && ReportsOn(c, env, a[k], idsA[k], start);
      } else {
        assert idsB[k - |idsA|] in foundB && ReportsOn(c, env, b[k - |idsA|], idsB[k - |idsA|], start);
      }
    }
    forall i, j | 0 <= i < j < |ids|
      ensures ids[i] != ids[j]
    {
      if i < |idsA| && j >= |idsA| {
        assert idsA[i] in foundA && idsB[j - |idsA|] in foundB;
      }
    }
  }

  lemma ChainGrows(c: Catalog, chain: seq<Id>, id: Id)
    requires CallChain(c, chain) && id in c.graphs && (chain != [] ==> (chain[|chain| - 1], id) in CallArcs(c))
    ensures CallChain(c, chain + [id]) && NamesOf(c, chain + [id]) == NamesOf(c, chain) + [c.graphs[id].name]
  {
    assert (chain + [id])[..|chain|] == chain;
  }

  lemma ResolvedSubgraph(c: Catalog, id: Id, s: string)
    requires Consistent(c) && id in c.graphs && c.graphs[id].scan.Some? && s in c.graphs[id].scan.value.subgraphs
    requires ResolveGraph(c, s).Some?
    ensures (id, ResolveGraph(c, s).value) in CallArcs(c) && ResolveGraph(c, s).value in c.graphs
  {
  }

  /** What a successful call for graph `id` has done to the visited set and the reports. */
  ghost predicate Swept(c: Catalog, env: Env, id: Id, before: set<Id>, after: set<Id>,
                        added: seq<Report>, ids: seq<Id>, start: Id) {
    && before <= after && id in after && Explored(c, after - before, after)
    && (forall x :: x in after - before ==> Reaches(CallArcs(c), id, x))
    && ReportsExact(c, env, added, ids, after - before, start)
  }

  /** The same while the subgraphs of `id` after those in `done` are still to be looked at. */
  ghost predicate Sweeping(c: Catalog, env: Env, id: Id, before: set<Id>, now: set<Id>, done: seq<string>,
                           added: seq<Report>, ids: seq<Id>, start: Id) {
    && before + {id} <= now && id !in before && Explored(c, now - before - {id}, now)
    && (forall x :: x in now - before ==> Reaches(CallArcs(c), id, x))
    && (forall s :: s in done ==> ResolveGraph(c, s).Some? && ResolveGraph(c, s).value in now)
    && ReportsExact(c, env, added, ids, now - before, start)
  }

  lemma SweepNext(c: Catalog, env: Env, id: Id, before: set<Id>, now: set<Id>, done: seq<string>,
                  added: seq<Report>, ids: seq<Id>, start: Id,
                  s: string, after: set<Id>, more: seq<Report>, moreIds: seq<Id>)
    requires Sweeping(c, env, id, before, now, done, added, ids, start)
    requires ResolveGraph(c, s).Some? && (id, ResolveGraph(c, s).value) in CallArcs(c)
    requires Swept(c, env, ResolveGraph(c, s).value, now, after, more, moreIds, start)
    ensures Sweeping(c, env, id, before, after, done + [s], added + more, ids + moreIds, start)
  {
    var to := ResolveGraph(c, s).value;
    forall x | x in after - now
      ensures Reaches(CallArcs(c), id, x)
    {
      ReachesArc(CallArcs(c), id, to);
      ReachesTrans(CallArcs(c), id, to, x);
    }
    ReportsConcat(c, env, added, ids, now - before, more, moreIds, after - now, start);
    assert (now - before) + (after - now) == after - before;
    assert (now - before - {id}) + (after - now) == after - before - {id};
  }

  lemma SweepDone(c: Catalog, env: Env, id: Id, before: set<Id>, now: set<Id>, added: seq<Report>, ids: seq<Id>, start: Id)
    requires id in c.graphs && c.graphs[id].scan.Some?
    requires Sweeping(c, env, id, before, now, c.graphs[id].scan.value.subgraphs, added, ids, start)
    ensures Swept(c, env, id, before, now, added, ids, start)
  {
    assert !Broken(c, id);
    assert now - before == (now - before - {id}) + {id};
    forall y | (id, y) in CallArcs(c)
      ensures y in now
    {
      var s :| s in c.graphs[id].scan.value.subgraphs && ResolveGraph(c, s) == Some(y);
    }
  }

  lemma SweepStart(c: Catalog, env: Env, id: Id, before: set<Id>, chain: seq<Id>, added: seq<Report>, ids: seq<Id>, start: Id)
    requires id !in before && CallChain(c, chain) && chain != [] && chain[0] == start && chain[|chain| - 1] == id
    requires var missing := Missing(c, env, id);
      if missing == [] then added == [] && ids == [] else added == [Report(NamesOf(c, chain), missing)] && ids == [id]
    ensures Sweeping(c, env, id, before, before + {id}, [], added, ids, start)
  {
    ReachesSelf(CallArcs(c), id);
    assert before + {id} - before == {id};
    assert CallsFromTo(c, chain, start, id);
    if ids != [] {
      assert ReportsOn(c, env, added[0], id, start);
    }
  }

  lemma SweptBefore(c: Catalog, env: Env, id: Id, visited: set<Id>, start: Id)
    requires id in visited
    ensures Swept(c, env, id, visited, visited, [], [], start)
  {
    assert visited - visited == {};
  }

  lemma ResolveFinds(c: Catalog, name: string)
    requires Consistent(c) && ResolveGraph(c, name).Some?
    ensures ResolveGraph(c, name).value in c.graphs
  {
  }

  lemma MissingIsComputed(c: Catalog, env: Env, id: Id)
    requires id in c.graphs && c.graphs[id].scan.Some?
    ensures Missing(c, env, id) == MissingKeys(env, c.graphs[id].scan.value.deps)
  {
  }

  lemma FailsIs(c: Catalog, name: string)
    ensures ResolveGraph(c, name).None? ==> Fails(c, name, NotFound(name))
    ensures ResolveGraph(c, name).Some? ==> forall e :: Fails(c, name, e) <==> FailsAt(c, ResolveGraph(c, name).value, e)
  {
  }

  lemma FailsBelow(c: Catalog, id: Id, s: string, e: DispatchError)
    requires Consistent(c) && id in c.graphs && c.graphs[id].scan.Some? && s in c.graphs[id].scan.value.subgraphs && Fails(c, s, e)
    ensures FailsAt(c, id, e)
  {
    ReachesSelf(CallArcs(c), id);
    if ResolveGraph(c, s).Some? {
      var to := ResolveGraph(c, s).value;
      var x :| Reaches(CallArcs(c), to, x) && x in c.graphs &&
        match e
        case NotFound(s) => c.graphs[x].scan.Some? && s in c.graphs[x].scan.value.subgraphs && ResolveGraph(c, s).None?
        case ExecutionFailed => c.graphs[x].scan.None?;
      ResolvedSubgraph(c, id, s);
      ReachesArc(CallArcs(c), id, to);
      ReachesTrans(CallArcs(c), id, to, x);
    }
  }

  lemma BrokenWithoutScan(c: Catalog, id: Id)
    requires id in c.graphs && c.graphs[id].scan.None?
    ensures ReachesBroken(c, id) && FailsAt(c, id, ExecutionFailed)
  {
    ReachesSelf(CallArcs(c), id);
    assert Broken(c, id);
  }

  /** `added` and `ids` name what this call adds to the reports. */
  method ValidateGraphEnv(c: Catalog, name: string, env: Env, visited0: set<Id>, reports0: seq<Report>,
                          prefix: seq<string>, ghost chain: seq<Id>)
    returns (r: Result<(), DispatchError>, visited: set<Id>, reports: seq<Report>,
             ghost added: seq<Report>, ghost ids: seq<Id>)
    requires Consistent(c) && CallChain(c, chain) && prefix == NamesOf(c, chain)
    requires chain != [] && ResolveGraph(c, name).Some? ==> (chain[|chain| - 1], ResolveGraph(c, name).value) in CallArcs(c)
    ensures r.Err? ==> ResolveGraph(c, name).None? || ReachesBroken(c, ResolveGraph(c, name).value)
    ensures r.Err? ==> Fails(c, name, r.error)
    ensures r.Ok? ==> ResolveGraph(c, name).Some? && reports == reports0 + added && visited0 <= visited
    ensures r.Ok? ==> Swept(c, env, ResolveGraph(c, name).value, visited0, visited, added, ids,
                            if chain == [] then ResolveGraph(c, name).value else chain[0])
    decreases c.graphs.Keys - visited0, 2
  {
    hide *;
    visited, reports, added, ids, r := visited0, reports0, [], [], Ok(());
    assert reports0 + [] == reports0;
    var resolved := ResolveGraph(c, name);
    FailsIs(c, name);
    if resolved.None? {
      r := Err(NotFound(name));
      return;
    }
    var id := resolved.value;
    ResolveFinds(c, name);
    if id in visited {
      SweptBefore(c, env, id, visited, if chain == [] then id else chain[0]);
      return;
    }
    if c.graphs[id].scan.None? {
      BrokenWithoutScan(c, id);
      r := Err(ExecutionFailed);
      return;
    }
    ChainGrows(c, chain, id);
    r, visited, reports, added, ids :=
      ValidateNewGraph(c, id, env, visited, reports, prefix + [c.graphs[id].name], chain + [id]);
  }

  /** The first visit of a graph whose plan can be had. */
  method ValidateNewGraph(c: Catalog, id: Id, env: Env, visited0: set<Id>, reports0: seq<Report>,
                          path: seq<string>, ghost here: seq<Id>)
    returns (r: Result<(), DispatchError>, visited: set<Id>, reports: seq<Report>,
             ghost added: seq<Report>, ghost ids: seq<Id>)
    requires Consistent(c) && id in c.graphs && c.graphs[id].scan.Some? && id !in visited0
    requires CallChain(c, here) && here != [] && here[|here| - 1] == id && path == NamesOf(c, here)
    ensures r.Err? ==> ReachesBroken(c, id) && FailsAt(c, id, r.error)
    ensures r.Ok? ==> reports == reports0 + added && visited0 <= visited
    ensures r.Ok? ==> Swept(c, env, id, visited0, visited, added, ids, here[0])
    decreases c.graphs.Keys - visited0, 1
  {
    hide *;
    visited := visited0 + {id};
    var missing := ComputeMissing(env, c.graphs[id].scan.value.deps);
    MissingIsComputed(c, env, id);
    ghost var own: seq<Report>, ownIds: seq<Id> := [], [];
    reports := reports0;
    if missing != [] {
      own, ownIds := [Report(path, missing)], [id];
      reports := reports + [Report(path, missing)];
    }
    assert reports == reports0 + own;
    SweepStart(c, env, id, visited0, here, own, ownIds, here[0]);
    r, visited, reports, added, ids := ValidateSubgraphs(c, id, env, visited0, visited, reports, path, here, reports0, own, ownIds);
    if r.Ok? {
      SweepDone(c, env, id, visited0, visited, added, ids, here[0]);
    }
  }

  /** The loop over the subgraph calls of one graph. */
  method ValidateSubgraphs(c: Catalog, id: Id, env: Env, ghost before: set<Id>, visited0: set<Id>, reports0: seq<Report>,
                           path: seq<string>, ghost here: seq<Id>, ghost base: seq<Report>,
                           ghost added0: seq<Report>, ghost ids0: seq<Id>)
    returns (r: Result<(), DispatchError>, visited: set<Id>, reports: seq<Report>,
             ghost added: seq<Report>, ghost ids: seq<Id>)
    requires Consistent(c) && id in c.graphs && c.graphs[id].scan.Some?
    requires CallChain(c, here) && here != [] && here[|here| - 1] == id && path == NamesOf(c, here)
    requires Sweeping(c, env, id, before, visited0, [], added0, ids0, here[0])
    requires before <= visited0 && id in visited0 && id !in before && reports0 == base + added0
    ensures r.Err? ==> ReachesBroken(c, id) && FailsAt(c, id, r.error)
    ensures r.Ok? ==> visited0 <= visited && reports == base + added
    ensures r.Ok? ==> Sweeping(c, env, id, before, visited, c.graphs[id].scan.value.subgraphs, added, ids, here[0])
    decreases c.graphs.Keys - before, 0
  {
    hide *;
    var subgraphs := c.graphs[id].scan.value.subgraphs;
    r, visited, reports, added, ids := Ok(()), visited0, reports0, added0, ids0;
    for i := 0 to |subgraphs|
      invariant r.Ok? && reports == base + added
      invariant Sweeping(c, env, id, before, visited, subgraphs[..i], added, ids, here[0]) && visited0 <= visited
    {
      var s := subgraphs[i];
      if ResolveGraph(c, s).Some? {
        ResolvedSubgraph(c, id, s);
      }
      ghost var now := visited;
      ghost var more, moreIds;
      r, visited, reports, more, moreIds := ValidateGraphEnv(c, s, env, visited, reports, path, here);
      if r.Err? {
        BrokenBelow(c, id, s);
        FailsBelow(c, id, s, r.error);
        return;
      }
      SweepNext(c, env, id, before, now, subgraphs[..i], added, ids, here[0], s, visited, more, moreIds);
      assert subgraphs[..i + 1] == subgraphs[..i] + [s];
      assert (base + added) + more == base + (added + more);
      added, ids := added + more, ids + moreIds;
    }
    assert subgraphs[..|subgraphs|] == subgraphs;
  }

  lemma BrokenBelow(c: Catalog, id: Id, s: string)
    requires Consistent(c) && id in c.graphs && c.graphs[id].scan.Some? && s in c.graphs[id].scan.value.subgraphs
    requires ResolveGraph(c, s).None? || ReachesBroken(c, ResolveGraph(c, s).value)
    ensures ReachesBroken(c, id)
  {
    ReachesSelf(CallArcs(c), id);
    if ResolveGraph(c, s).None? {
      assert Broken(c, id);
    } else {
      var to := ResolveGraph(c, s).value;
      var x :| Reaches(CallArcs(c), to, x) && Broken(c, x);
      ResolvedSubgraph(c, id, s);
      ReachesArc(CallArcs(c), id, to);
      ReachesTrans(CallArcs(c), id, to, x);
    }
  }

  // ── The whole check ─────────────────────────────────────────────

  ghost predicate Reachable(c: Catalog, root: Id, id: Id) {
    Reaches(CallArcs(c), root, id)
  }

  /** It succeeds exactly if every reachable graph can be loaded; then there is exactly one
      report for each reachable graph that lacks a mandatory key. */
  ghost predicate Checks(c: Catalog, root: string, env: Env, r: Result<seq<Report>, DispatchError>, ids: seq<Id>) {
    && (r.Ok? <==> ResolveGraph(c, root).Some? && !ReachesBroken(c, ResolveGraph(c, root).value))
    && (r.Ok? ==>
          && |r.value| == |ids| && NoneTwice(ids)
          && (forall k :: 0 <= k < |ids| ==> ReportsOn(c, env, r.value[k], ids[k], ResolveGraph(c, root).value))
          && (forall x :: x in ids <==> Reachable(c, ResolveGraph(c, root).value, x) && Missing(c, env, x) != []))
  }

  method ValidateEnv(c: Catalog, root: string, env: Env)
    returns (r: Result<seq<Report>, DispatchError>, ghost ids: seq<Id>)
    requires Consistent(c)
    ensures r.Ok? <==> ResolveGraph(c, root).Some? && !ReachesBroken(c, ResolveGraph(c, root).value)
    ensures r == Ok([]) <==>
            && ResolveGraph(c, root).Some?
            && forall x :: Reachable(c, ResolveGraph(c, root).value, x) ==> !Broken(c, x) && Missing(c, env, x) == []
    ensures r.Err? ==> Fails(c, root, r.error)
    ensures Checks(c, root, env, r, ids)
  {
    var ok, visited, reports;
    ghost var added;
    ok, visited, reports, added, ids := ValidateGraphEnv(c, root, env, {}, [], [], []);
    if ok.Err? {
      r, ids := Err(ok.error), [];
      EmptyReportIff(c, root, env, r, ids);
      return;
    }
    ghost var id := ResolveGraph(c, root).value;
    assert visited - {} == visited;
    assert [] + added == added;
    VisitedIsReachable(c, id, visited);
    r := Ok(reports);
    EmptyReportIff(c, root, env, r, ids);
  }

  lemma VisitedIsReachable(c: Catalog, id: Id, visited: set<Id>)
    requires id in visited && Explored(c, visited, visited)
    requires forall x :: x in visited ==> Reaches(CallArcs(c), id, x)
    ensures forall x :: x in visited <==> Reachable(c, id, x)
    ensures !ReachesBroken(c, id)
  {
    assert Closed(CallArcs(c), visited);
    forall x | Reaches(CallArcs(c), id, x)
      ensures x in visited
    {
      ClosedReaches(CallArcs(c), visited, id, x);
    }
  }

  lemma {:induction false} NothingMissing(env: Env, deps: seq<EnvDep>)
    ensures MissingKeys(env, deps) == [] <==> forall d :: d in deps && !d.optional ==> GetSpec(env, d.key).Some?
  {
    if deps != [] {
      NothingMissing(env, deps[..|deps| - 1]);
      assert deps == deps[..|deps| - 1] + [deps[|deps| - 1]];
    }
  }

  lemma {:induction false} CalledAreStored(c: Catalog, p: seq<Id>)
    requires Consistent(c) && Walk(CallArcs(c), p) && p[0] in c.graphs
    ensures p[|p| - 1] in c.graphs
  {
    if |p| > 1 {
      assert (p[|p| - 2], p[|p| - 1]) in CallArcs(c);
    }
  }

  /** The check came back with `Ok` and no report exactly if the root is found, each graph that can be called
      from it can be loaded, and each mandatory key of each of them has a value. */
  lemma EmptyReportIff(c: Catalog, root: string, env: Env, r: Result<seq<Report>, DispatchError>, ids: seq<Id>)
    requires Consistent(c) && Checks(c, root, env, r, ids)
    ensures r == Ok([]) <==>
            && ResolveGraph(c, root).Some?
            && forall x :: Reachable(c, ResolveGraph(c, root).value, x) ==> !Broken(c, x) && Missing(c, env, x) == []
  {
    hide Missing, Broken;
    assert ids == [] || ids[0] in ids;
    if r == Ok([]) {
      assert ids == [];
    }
    if ResolveGraph(c, root).Some? && forall x :: Reachable(c, ResolveGraph(c, root).value, x) ==> !Broken(c, x) && Missing(c, env, x) == [] {
      assert r.Ok?;
    }
  }

  /** After an empty report, each mandatory key of each graph that can be called has a value,
      in whatever nested scopes the graph is run; and each such graph can be had. */
  lemma EmptyReportMeansReady(c: Catalog, env: Env, root: string, ids: seq<Id>, x: Id, scopes: seq<string>)
    requires Consistent(c) && Checks(c, root, env, Ok([]), ids)
    requires ResolveGraph(c, root).Some? ==> Reachable(c, ResolveGraph(c, root).value, x)
    ensures x in c.graphs && c.graphs[x].scan.Some?
    ensures forall d :: d in c.graphs[x].scan.value.deps && !d.optional ==> GetSpec(ScopedBy(env, scopes), d.key).Some?
  {
    EmptyReportIff(c, root, env, Ok([]), ids);
    var id := ResolveGraph(c, root).value;
    var p :| WalkFromTo(CallArcs(c), p, id, x);
    CalledAreStored(c, p);
    assert !Broken(c, x) && Missing(c, env, x) == [];
    NothingMissing(env, c.graphs[x].scan.value.deps);
    forall d | d in c.graphs[x].scan.value.deps && !d.optional
      ensures GetSpec(ScopedBy(env, scopes), d.key).Some?
    {
      ScopingKeepsVariables(env, scopes, d.key);
    }
  }
}
