/** The static scan of a plan for what it reads from the environment, and the tools that read it. */
module EnvDeps {
  import opened Wrappers
  import opened Plan
  import opened Env
  import opened EnvCheck
  import opened Template

  /** An argument's text as far as the scan looks at it: a string literal, or anything else. */
  datatype ArgText = StringLiteral(text: string) | OtherText

  datatype Arg = Arg(key: string, value: ArgText)

  datatype PlanNode = PlanNode(op: Opcode, args: seq<Arg>)

  function FindArg(args: seq<Arg>, key: string): (r: Option<ArgText>)
    ensures r.Some? <==> exists a :: a in args && a.key == key
  {
    if args == [] then None
    else if args[0].key == key then Some(args[0].value)
    else
      assert forall a :: a in args <==> a == args[0] || a in args[1..];
      FindArg(args[1..], key)
  }

  function LiteralArg(args: seq<Arg>, key: string): Option<string> {
    match FindArg(args, key)
    case Some(StringLiteral(s)) => Some(s)
    case _ => None
  }

  // ── The scan ────────────────────────────────────────────────────

  predicate Calls(n: PlanNode, target: string) {
    n.op == Opcode.Call && LiteralArg(n.args, "target") == Some(target)
  }

  /** What one node is known to read: a literal key of `env.get`, which is optional with a
      default, and the keys in a literal template. */
  function NodeDeps(n: PlanNode): seq<EnvDep> {
    if Calls(n, "env.get") && LiteralArg(n.args, "key").Some? then
      [EnvDep(LiteralArg(n.args, "key").value, FindArg(n.args, "default").Some?)]
    else if Calls(n, "env.template") && LiteralArg(n.args, "value").Some? then Extracted(LiteralArg(n.args, "value").value)
    else []
  }

  function ScanDeps(nodes: seq<PlanNode>): seq<EnvDep> {
    if nodes == [] then [] else ScanDeps(nodes[..|nodes| - 1]) + NodeDeps(nodes[|nodes| - 1])
  }

  method ScanPlanEnvDeps(nodes: seq<PlanNode>) returns (deps: seq<EnvDep>)
    ensures deps == ScanDeps(nodes)
  {
    deps := [];
    for i := 0 to |nodes|
      invariant deps == ScanDeps(nodes[..i])
    {
      assert nodes[..i + 1][..i] == nodes[..i];
      if nodes[i].op != Opcode.Call {
        continue;
      }
      var target := LiteralArg(nodes[i].args, "target");
      if target.None? {
        continue;
      }
      if target.value == "env.get" {
        deps := CollectEnvGetDeps(nodes[i], deps);
      } else if target.value == "env.template" {
        deps := CollectEnvTemplateDeps(nodes[i], deps);
      }
    }
    assert nodes[..|nodes|] == nodes;
  }

  method CollectEnvGetDeps(n: PlanNode, deps0: seq<EnvDep>) returns (deps: seq<EnvDep>)
    requires Calls(n, "env.get")
    ensures deps == deps0 + NodeDeps(n)
  {
    deps := deps0;
    var key := LiteralArg(n.args, "key");
    if key.Some? {
      deps := deps + [EnvDep(key.value, FindArg(n.args, "default").Some?)];
    }
  }

  method CollectEnvTemplateDeps(n: PlanNode, deps0: seq<EnvDep>) returns (deps: seq<EnvDep>)
    requires Calls(n, "env.template")
    ensures deps == deps0 + NodeDeps(n)
  {
    deps := deps0;
    var value := LiteralArg(n.args, "value");
    assert "env.get" != "env.template";
    if value.Some? {
      var found := ExtractTemplateKeys(value.value);
      deps := deps + found;
    }
  }

  /** The scan misses no node and adds nothing of its own. */
  lemma {:induction false} ScanIsByNode(nodes: seq<PlanNode>, d: EnvDep)
    ensures d in ScanDeps(nodes) <==> exists n :: n in nodes && d in NodeDeps(n)
  {
    if nodes != [] {
      ScanIsByNode(nodes[..|nodes| - 1], d);
      assert nodes == nodes[..|nodes| - 1] + [nodes[|nodes| - 1]];
    }
  }

  /** An `env.get` gives one dependency if its key is a literal, optional exactly if it has a default; and
      nothing is said of it otherwise. */
  lemma GetIsScanned(n: PlanNode)
    requires Calls(n, "env.get")
    ensures forall d :: d in NodeDeps(n) <==>
      LiteralArg(n.args, "key") == Some(d.key) && (d.optional <==> exists a :: a in n.args && a.key == "default")
  {
    assert "env.get" != "env.template";
  }

  // ── Subgraph calls ──────────────────────────────────────────────

  const Prefix := "subgraph:"

  function NodeTargets(n: PlanNode): seq<string> {
    var target := if n.op == Opcode.Call then LiteralArg(n.args, "target") else None;
    if target.Some? && Prefix <= target.value then [target.value[|Prefix|..]] else []
  }

  function Targets(nodes: seq<PlanNode>): seq<string> {
    if nodes == [] then [] else Targets(nodes[..|nodes| - 1]) + NodeTargets(nodes[|nodes| - 1])
  }

  method SubgraphTargets(nodes: seq<PlanNode>) returns (targets: seq<string>)
    ensures targets == Targets(nodes)
  {
    targets := [];
    for i := 0 to |nodes|
      invariant targets == Targets(nodes[..i])
    {
      assert nodes[..i + 1][..i] == nodes[..i];
      if nodes[i].op != Opcode.Call {
        continue;
      }
      var target := LiteralArg(nodes[i].args, "target");
      if target.None? {
        continue;
      }
      if Prefix <= target.value {
        targets := targets + [target.value[|Prefix|..]];
      }
    }
    assert nodes[..|nodes|] == nodes;
  }

  /** The targets are exactly the names that some node calls as a subgraph. */
  lemma {:induction false} TargetsAreCalls(nodes: seq<PlanNode>, s: string)
    ensures s in Targets(nodes) <==> exists n :: n in nodes && Calls(n, Prefix + s)
  {
    if nodes != [] {
      var last := nodes[|nodes| - 1];
      TargetsAreCalls(nodes[..|nodes| - 1], s);
      assert nodes == nodes[..|nodes| - 1] + [last];
      TargetIsCall(last, s);
    }
  }

  lemma TargetIsCall(n: PlanNode, s: string)
    ensures s in NodeTargets(n) <==> Calls(n, Prefix + s)
  {
    assert (Prefix + s)[|Prefix|..] == s;
    if s in NodeTargets(n) {
      assert LiteralArg(n.args, "target").value == Prefix + s;
    }
  }

  // ── The tools ───────────────────────────────────────────────────

  /** A value as far as these tools look at it. */
  datatype ToolValue = Str(text: string) | NotStr

  datatype ToolError = NoKey | NotFound(key: string) | NoTemplate | Unresolved(error: EnvError)

  /** A keyword wins over the first positional argument, even if it is not a string. */
  function TextArgument(args: seq<ToolValue>, kwargs: map<string, ToolValue>, key: string): Option<string> {
    var v: Option<ToolValue> := if key in kwargs then Some(kwargs[key]) else if args != [] then Some(args[0]) else None;
    match v
    case Some(Str(s)) => Some(s)
    case _ => None
  }

  function EnvGet(args: seq<ToolValue>, kwargs: map<string, ToolValue>, env: Env): Result<ToolValue, ToolError> {
    match TextArgument(args, kwargs, "key")
    case None => Err(NoKey)
    case Some(key) =>
      var v := GetSpec(env, key);
      if v.Some? then Ok(Str(v.value))
      else if "default" in kwargs then Ok(kwargs["default"])
      else Err(ToolError.NotFound(key))
  }

  function EnvTemplate(args: seq<ToolValue>, kwargs: map<string, ToolValue>, env: Env): Result<ToolValue, ToolError> {
    match TextArgument(args, kwargs, "value")
    case None => Err(NoTemplate)
    case Some(s) =>
      var r := Template.Resolved(env, s);
      if r.Ok? then Ok(Str(r.value)) else Err(Unresolved(r.error))
  }

  /** The argument is the keyword if there is one, else the first positional argument. */
  ghost predicate Given(args: seq<ToolValue>, kwargs: map<string, ToolValue>, key: string, v: ToolValue) {
    if key in kwargs then kwargs[key] == v else args != [] && args[0] == v
  }

  /** What `env.get` gives: the value that the environment has; only without one the default, or an error. */
  lemma EnvGetGives(args: seq<ToolValue>, kwargs: map<string, ToolValue>, env: Env, key: string)
    requires Given(args, kwargs, "key", Str(key))
    ensures forall v :: Answered(env, key, v) ==> EnvGet(args, kwargs, env) == Ok(Str(v))
    ensures (forall v :: !Answered(env, key, v)) ==>
      EnvGet(args, kwargs, env) == if "default" in kwargs then Ok(kwargs["default"]) else Err(ToolError.NotFound(key))
  {
    hide Answered;
    NoneAnswers(env, key);
    forall v | Answered(env, key, v)
      ensures GetSpec(env, key) == Some(v)
    {
      GetIff(env, key, v);
    }
  }

  lemma EnvGetNeedsKey(args: seq<ToolValue>, kwargs: map<string, ToolValue>, env: Env)
    requires forall key :: !Given(args, kwargs, "key", Str(key))
    ensures EnvGet(args, kwargs, env) == Err(NoKey)
  {
    var v := TextArgument(args, kwargs, "key");
    assert v.None? || Given(args, kwargs, "key", Str(v.value));
  }

  // ── What the scan is for ────────────────────────────────────────

  /** The keywords of a dispatched call: those of the node, literals as they stand. */
  ghost predicate Passes(n: PlanNode, kwargs: map<string, ToolValue>) {
    && (forall a :: a in n.args ==> a.key in kwargs)
    && (forall key :: key in kwargs && LiteralArg(n.args, key).Some? ==> kwargs[key] == Str(LiteralArg(n.args, key).value))
  }

  ghost predicate MandatorySet(env: Env, deps: seq<EnvDep>) {
    forall d :: d in deps && !d.optional ==> GetSpec(env, d.key).Some?
  }

  /** If every mandatory key of the scan is set, an `env.get` with a literal key succeeds. */
  lemma ScannedGetSucceeds(nodes: seq<PlanNode>, n: PlanNode, args: seq<ToolValue>, kwargs: map<string, ToolValue>, env: Env)
    requires n in nodes && Calls(n, "env.get") && LiteralArg(n.args, "key").Some? && Passes(n, kwargs)
    requires MandatorySet(env, ScanDeps(nodes))
    ensures EnvGet(args, kwargs, env).Ok?
  {
    var d := EnvDep(LiteralArg(n.args, "key").value, FindArg(n.args, "default").Some?);
    assert d in NodeDeps(n);
    ScanIsByNode(nodes, d);
    assert "key" in kwargs;
  }

  /** And an `env.template` with a literal template of clean segments gives their values. */
  lemma ScannedTemplateSucceeds(nodes: seq<PlanNode>, n: PlanNode, gs: seq<Segment>, args: seq<ToolValue>,
                                kwargs: map<string, ToolValue>, env: Env)
    requires n in nodes && Calls(n, "env.template") && LiteralArg(n.args, "value") == Some(Render(gs)) && Passes(n, kwargs)
    requires Clean(gs) && MandatorySet(env, ScanDeps(nodes))
    ensures Value(env, gs).Ok? && EnvTemplate(args, kwargs, env) == Ok(Str(Value(env, gs).value))
  {
    assert "env.get" != "env.template";
    forall d | d in Extracted(Render(gs))
      ensures d in ScanDeps(nodes)
    {
      assert d in NodeDeps(n);
      ScanIsByNode(nodes, d);
    }
    SetKeysResolve(env, gs);
    assert "value" in kwargs;
  }

  /** After an empty report of the check, no `env.get` with a literal key fails, in any graph that
      can be called and in whatever nested scopes it runs. */
  lemma CheckedGetsSucceed(c: Catalog, env: Env, root: string, ids: seq<EnvCheck.Id>, x: EnvCheck.Id, nodes: seq<PlanNode>,
                           n: PlanNode, args: seq<ToolValue>, kwargs: map<string, ToolValue>, scopes: seq<string>)
    requires Consistent(c) && Checks(c, root, env, Ok([]), ids)
    requires ResolveGraph(c, root).Some? ==> Reachable(c, ResolveGraph(c, root).value, x)
    requires x in c.graphs && c.graphs[x].scan.Some? ==> c.graphs[x].scan.value.deps == ScanDeps(nodes)
    requires n in nodes && Calls(n, "env.get") && LiteralArg(n.args, "key").Some? && Passes(n, kwargs)
    ensures EnvGet(args, kwargs, ScopedBy(env, scopes)).Ok?
  {
    EmptyReportMeansReady(c, env, root, ids, x, scopes);
    ScannedGetSucceeds(nodes, n, args, kwargs, ScopedBy(env, scopes));
  }
}
