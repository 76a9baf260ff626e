/** What a program records while it is transformed, read off its syntax.

    The trace of a program lists, in the order of the walk, where a statement starts, which faults
    are recorded, and which nodes are left without what the validator asks of them. From the trace
    alone follows whether the transform succeeds, and with which faults. */
module TransformTrace {
  import opened Wrappers
  import opened Ast
  import opened TransformSpec

  /** `Enter` starts a statement, which is refused once a fault is recorded. `SwitchPushed` is a SWITCH
      without a condition, `AssertPushed` a DECIDE that gets no branches, and `EmptyBody` a body that
      no Python program has. */
  datatype Event = Enter | Record(fault: Fault) | SwitchPushed | AssertPushed | EmptyBody

  // ── The trace ───────────────────────────────────────────────────

  function ExprTrace(e: Expr): seq<Event>
    decreases e, 1
  {
    match e
    case Call(func, args, keywords) =>
      (match Callee(func)
       case None => [Record(DynamicCall)]
       case Some(name) =>
         if name == "call" || name == "act" then ExprsTrace(args) + KeywordsTrace(keywords)
         else if name == "sleep" || IsBuiltin(name) then ExprsTrace(args)
         else ExprsTrace(args) + KeywordsTrace(keywords))
    case _ => []
  }

  function ExprsTrace(es: seq<Expr>): seq<Event>
    decreases es, 0
  {
    if es == [] then [] else ExprTrace(es[0]) + ExprsTrace(es[1..])
  }

  function KeywordsTrace(ks: seq<Keyword>): seq<Event>
    decreases ks, 0
  {
    if ks == [] then [] else ExprTrace(ks[0].value) + KeywordsTrace(ks[1..])
  }

  function StmtTrace(s: Stmt): seq<Event>
    decreases s, 2
  {
    [Enter] + WalkTrace(s)
  }

  function WalkTrace(s: Stmt): seq<Event>
    decreases s, 1
  {
    match s
    case Assign(targets, value) =>
      if |targets| != 1 then [Record(ManyTargets)]
      else if !targets[0].Name? then [Record(TargetNotName)]
      else ExprTrace(value)
    case AnnAssign(target, annotated) =>
      if !target.Name? then [Record(TargetNotName)]
      else if annotated.Some? then ExprTrace(annotated.value)
      else []
    case AugAssign(target, value) => if !target.Name? then [Record(TargetNotName)] else ExprTrace(value)
    case ExprStmt(value) => ExprTrace(value)
    case Return(returned) => if returned.Some? then ExprTrace(returned.value) else []
    case If(test, body, orelse) => ExprTrace(test) + BodyTrace(body) + BodyTrace(orelse) + Hollow(body)
    case For(target, iter, body) =>
      if !target.Name? then ExprTrace(iter) + [Record(TargetNotName)]
      else ExprTrace(iter) + BodyTrace(body) + Hollow(body)
    case With(item, body) =>
      (match item
       case ParallelItem => BodyTrace(body) + Hollow(body)
       case GroupItem(_) => BodyTrace(body)
       case OtherItem => [Record(UnsupportedWith)])
    case Match(subject, cases) => ExprTrace(subject) + [SwitchPushed] + CasesTrace(cases, false)
    case Assert(test) => ExprTrace(test) + [AssertPushed]
    case OtherStmt => [Record(UnsupportedStatement)]
    case _ => []
  }

  function Hollow(body: seq<Stmt>): seq<Event> {
    if body == [] then [EmptyBody] else []
  }

  function BodyTrace(stmts: seq<Stmt>): seq<Event>
    decreases stmts, 0
  {
    if stmts == [] then [] else StmtTrace(stmts[0]) + BodyTrace(stmts[1..])
  }

  function CasesTrace(cases: seq<Case>, hasDefault: bool): seq<Event>
    decreases cases, 0
  {
    if cases == [] then []
    else
      var c := cases[0];
      if c.pattern.Unsupported? then [Record(UnsupportedPattern)] + CasesTrace(cases[1..], hasDefault)
      else
        (if c.pattern.Capture? && hasDefault then [Record(ManyDefaults)] else [])
        + BodyTrace(c.body) + CasesTrace(cases[1..], hasDefault || c.pattern.Capture?)
  }

  // ── Playing a trace ─────────────────────────────────────────────

  /** The faults recorded at the end, or those on record when a statement was refused. */
  function Play(faults: seq<Fault>, t: seq<Event>): Result<seq<Fault>, seq<Fault>>
    decreases |t|
  {
    if t == [] then Ok(faults)
    else
      match t[0]
      case Enter => if faults != [] then Err(faults) else Play(faults, t[1..])
      case Record(f) => Play(faults + [f], t[1..])
      case _ => Play(faults, t[1..])
  }

  lemma {:induction false} PlayThen(faults: seq<Fault>, t: seq<Event>, u: seq<Event>)
    ensures Play(faults, t + u) == if Play(faults, t).Ok? then Play(Play(faults, t).value, u) else Play(faults, t)
    decreases |t|
  {
    if t == [] {
      assert t + u == u;
    } else {
      assert (t + u)[1..] == t[1..] + u;
      match t[0]
      case Record(f) => PlayThen(faults + [f], t[1..], u);
      case _ => PlayThen(faults, t[1..], u);
    }
  }

  function Records(t: seq<Event>): seq<Fault> {
    if t == [] then [] else (if t[0].Record? then [t[0].fault] else []) + Records(t[1..])
  }

  /** No statement starts after a fault. */
  ghost predicate FaultsLast(t: seq<Event>) {
    forall i, j :: 0 <= i < j < |t| && t[i].Record? ==> !t[j].Enter?
  }

  ghost predicate NoRecord(t: seq<Event>) {
    forall i :: 0 <= i < |t| ==> !t[i].Record?
  }

  /** Once a fault is on record, only a statement can stop the walk. */
  lemma {:induction false} PlayWithFaults(faults: seq<Fault>, t: seq<Event>)
    requires faults != []
    ensures Play(faults, t).Ok? <==> Enter !in t
    ensures Play(faults, t).Ok? ==> Play(faults, t).value == faults + Records(t)
    decreases |t|
  {
    if t != [] {
      match t[0]
      case Enter =>
      case Record(f) =>
        PlayWithFaults(faults + [f], t[1..]);
        assert t == [t[0]] + t[1..] && faults + [f] + Records(t[1..]) == faults + ([f] + Records(t[1..]));
      case _ =>
        PlayWithFaults(faults, t[1..]);
        assert t == [t[0]] + t[1..] && [] + Records(t[1..]) == Records(t[1..]);
    }
  }

  /** The walk ends normally exactly if no statement starts after a fault; then the faults are
      those of the trace. */
  lemma {:induction false} PlayFromStart(t: seq<Event>)
    ensures Play([], t).Ok? <==> FaultsLast(t)
    ensures Play([], t).Ok? ==> Play([], t).value == Records(t)
    decreases |t|
  {
    if t != [] {
      var rest := t[1..];
      assert t == [t[0]] + rest;
      if t[0].Record? {
        assert [] + [t[0].fault] == [t[0].fault];
        PlayWithFaults([t[0].fault], rest);
        RecordFirst(t);
      } else {
        PlayFromStart(rest);
        NoRecordFirst(t);
        assert [] + Records(rest) == Records(rest);
      }
    }
  }

  lemma RecordFirst(t: seq<Event>)
    requires t != [] && t[0].Record?
    ensures FaultsLast(t) <==> Enter !in t[1..]
  {
    assert forall j :: 0 <= j < |t| - 1 ==> t[1..][j] == t[j + 1];
    if Enter !in t[1..] {
      forall i, j | 0 <= i < j < |t| && t[i].Record?
        ensures !t[j].Enter?
      {
        assert t[j] == t[1..][j - 1] && t[j] in t[1..];
      }
    }
  }

  lemma NoRecordFirst(t: seq<Event>)
    requires t != [] && !t[0].Record?
    ensures FaultsLast(t) <==> FaultsLast(t[1..])
  {
    assert forall i :: 1 <= i < |t| ==> t[i] == t[1..][i - 1];
    if FaultsLast(t) {
      forall i, j | 0 <= i < j < |t| - 1 && t[1..][i].Record?
        ensures !t[1..][j].Enter?
      {
        assert t[i + 1].Record?;
      }
    }
  }

  lemma {:induction false} RecordsNothing(t: seq<Event>)
    ensures Records(t) == [] <==> NoRecord(t)
  {
    if t != [] {
      RecordsNothing(t[1..]);
      assert forall i :: 1 <= i < |t| ==> t[i] == t[1..][i - 1];
      if NoRecord(t) {
        forall i | 0 <= i < |t| - 1
          ensures !t[1..][i].Record?
        {
          assert !t[i + 1].Record?;
        }
      }
      if NoRecord(t[1..]) && !t[0].Record? {
        forall i | 0 <= i < |t|
          ensures !t[i].Record?
        {
          if i > 0 {
            assert !t[1..][i - 1].Record?;
          }
        }
      }
    }
  }

  // ── Programs ────────────────────────────────────────────────────

  ghost predicate HasGraph(m: seq<TopLevel>) {
    MetaCount(m) <= 1 && FindGraph(m).Some?
  }

  function GraphBody(m: seq<TopLevel>): seq<Stmt> {
    var g := FindGraph(m);
    if g.Some? && g.value.FunctionDef? then g.value.body else []
  }

  function ModuleTrace(m: seq<TopLevel>): seq<Event> {
    BodyTrace(GraphBody(m))
  }

  /** No statement and no expression that the transform walks is one that it complains about. */
  ghost predicate FaultFree(m: seq<TopLevel>) {
    HasGraph(m) && NoRecord(ModuleTrace(m))
  }

  ghost predicate WalksMatch(m: seq<TopLevel>) {
    SwitchPushed in ModuleTrace(m)
  }

  ghost predicate WalksAssert(m: seq<TopLevel>) {
    AssertPushed in ModuleTrace(m)
  }

  /** Every body has a statement, as the grammar of Python has it. */
  ghost predicate FullBodies(m: seq<TopLevel>) {
    EmptyBody !in ModuleTrace(m)
  }

  lemma ShortBodies(a: Stmt, b: Stmt)
    ensures BodyTrace([a]) == StmtTrace(a) && BodyTrace([a, b]) == StmtTrace(a) + StmtTrace(b)
  {
    hide StmtTrace;
    assert [a, b][1..] == [b] && [a][1..] == [] && [b][1..] == [];
    assert BodyTrace([b]) == StmtTrace(b) + BodyTrace([]);
  }

  lemma {:induction false} RecordsThen(t: seq<Event>, u: seq<Event>)
    ensures Records(t + u) == Records(t) + Records(u)
  {
    if t == [] {
      assert t + u == u;
    } else {
      RecordsThen(t[1..], u);
      assert (t + u)[1..] == t[1..] + u && (t + u)[0] == t[0];
      var first := if t[0].Record? then [t[0].fault] else [];
      assert first + (Records(t[1..]) + Records(u)) == (first + Records(t[1..])) + Records(u);
    }
  }

  lemma FaultsLastThen(t: seq<Event>, u: seq<Event>)
    requires FaultsLast(t + u)
    ensures FaultsLast(u) && (Enter in u ==> NoRecord(t))
  {
    var v := t + u;
    assert forall i :: 0 <= i < |t| ==> v[i] == t[i];
    forall i, j | 0 <= i < j < |u| && u[i].Record?
      ensures !u[j].Enter?
    {
      assert v[|t| + i] == u[i] && v[|t| + j] == u[j];
    }
    if Enter in u {
      var j :| 0 <= j < |u| && u[j] == Enter;
      assert v[|t| + j].Enter?;
    }
  }

  lemma {:induction false} OnlyLastRecords(stmts: seq<Stmt>, i: nat)
    requires FaultsLast(BodyTrace(stmts)) && i < |stmts| - 1
    ensures NoRecord(StmtTrace(stmts[i]))
  {
    var T, B := StmtTrace(stmts[0]), BodyTrace(stmts[1..]);
    FaultsLastThen(T, B);
    if i == 0 {
      assert B == StmtTrace(stmts[1]) + BodyTrace(stmts[1..][1..]);
      assert StmtTrace(stmts[1])[0] == Enter && B[0] == Enter;
    } else {
      OnlyLastRecords(stmts[1..], i - 1);
    }
  }

  lemma {:induction false} RecordsOfLast(stmts: seq<Stmt>)
    requires FaultsLast(BodyTrace(stmts))
    ensures Records(BodyTrace(stmts)) == if stmts == [] then [] else Records(StmtTrace(stmts[|stmts| - 1]))
  {
    if stmts != [] {
      var T, B := StmtTrace(stmts[0]), BodyTrace(stmts[1..]);
      FaultsLastThen(T, B);
      RecordsOfLast(stmts[1..]);
      RecordsThen(T, B);
      if |stmts| > 1 {
        OnlyLastRecords(stmts, 0);
        RecordsNothing(T);
        assert [] + Records(B) == Records(B);
      } else {
        assert Records(T) + [] == Records(T);
      }
    }
  }

  // ── A `match` that is written and a `match` that is walked ──────

  /** A `match` anywhere in a statement. */
  predicate HasMatch(s: Stmt) {
    match s
    case Match(_, _) => true
    case If(_, body, orelse) => AnyMatch(body) || AnyMatch(orelse)
    case For(_, _, body) => AnyMatch(body)
    case With(_, body) => AnyMatch(body)
    case _ => false
  }

  predicate AnyMatch(body: seq<Stmt>) {
    exists c :: c in body && HasMatch(c)
  }

  lemma {:induction false} ExprHasNoMatch(e: Expr)
    ensures SwitchPushed !in ExprTrace(e)
    decreases e, 1
  {
    if e.Call? {
      ExprsHaveNoMatch(e.args);
      KeywordsHaveNoMatch(e.keywords);
    }
  }

  lemma {:induction false} ExprsHaveNoMatch(es: seq<Expr>)
    ensures SwitchPushed !in ExprsTrace(es)
    decreases es, 0
  {
    if es != [] {
      ExprHasNoMatch(es[0]);
      ExprsHaveNoMatch(es[1..]);
    }
  }

  lemma {:induction false} KeywordsHaveNoMatch(ks: seq<Keyword>)
    ensures SwitchPushed !in KeywordsTrace(ks)
    decreases ks, 0
  {
    if ks != [] {
      ExprHasNoMatch(ks[0].value);
      KeywordsHaveNoMatch(ks[1..]);
    }
  }

  /** Only a `match` in the statement is walked as one; and if the statement records no fault, every
      `match` in it is walked. */
  lemma {:induction false} StmtMatches(s: Stmt)
    ensures SwitchPushed in StmtTrace(s) ==> HasMatch(s)
    ensures HasMatch(s) && NoRecord(StmtTrace(s)) ==> SwitchPushed in StmtTrace(s)
    decreases s, 1
  {
    hide ExprTrace, BodyTrace, NoRecord, AnyMatch;
    WalkMatches(s);
    NoRecordIn([Enter], WalkTrace(s), []);
    assert [Enter] + WalkTrace(s) + [] == StmtTrace(s);
  }

  lemma {:induction false} WalkMatches(s: Stmt)
    ensures SwitchPushed in WalkTrace(s) ==> HasMatch(s)
    ensures HasMatch(s) && NoRecord(WalkTrace(s)) ==> SwitchPushed in WalkTrace(s)
    decreases s, 0
  {
    hide ExprTrace, BodyTrace, NoRecord, AnyMatch;
    match s
    case If(test, body, orelse) =>
      var T, B, E, H := ExprTrace(test), BodyTrace(body), BodyTrace(orelse), Hollow(body);
      ExprHasNoMatch(test);
      BodyMatches(body);
      BodyMatches(orelse);
      assert T + B + E + H == T + B + (E + H);
      NoRecordIn(T, B, E + H);
      NoRecordIn(T + B, E, H);
    case For(_, iter, body) =>
      ExprHasNoMatch(iter);
      BodyMatches(body);
      NoRecordIn(ExprTrace(iter), BodyTrace(body), Hollow(body));
      RecordIn(ExprTrace(iter), TargetNotName);
    case With(item, body) =>
      BodyMatches(body);
      NoRecordIn([], BodyTrace(body), Hollow(body));
      assert [] + BodyTrace(body) + Hollow(body) == BodyTrace(body) + Hollow(body);
      RecordIn([], UnsupportedWith);
      assert [] + [Record(UnsupportedWith)] == [Record(UnsupportedWith)];
    case Match(_, _) =>
    case Assign(_, value) => ExprHasNoMatch(value);
    case AnnAssign(_, annotated) =>
      if annotated.Some? {
        ExprHasNoMatch(annotated.value);
      }
    case AugAssign(_, value) => ExprHasNoMatch(value);
    case ExprStmt(value) => ExprHasNoMatch(value);
    case Return(returned) =>
      if returned.Some? {
        ExprHasNoMatch(returned.value);
      }
    case Assert(test) => ExprHasNoMatch(test);
    case _ =>
  }

  lemma NoRecordIn(a: seq<Event>, b: seq<Event>, c: seq<Event>)
    ensures NoRecord(a + b + c) ==> NoRecord(b)
  {
    assert forall i :: 0 <= i < |b| ==> (a + b + c)[|a| + i] == b[i];
  }

  lemma RecordIn(a: seq<Event>, f: Fault)
    ensures !NoRecord(a + [Record(f)]) && a + [] == a
  {
    assert (a + [Record(f)])[|a|] == Record(f);
  }

  lemma {:induction false} BodyMatches(body: seq<Stmt>)
    ensures SwitchPushed in BodyTrace(body) ==> AnyMatch(body)
    ensures AnyMatch(body) && NoRecord(BodyTrace(body)) ==> SwitchPushed in BodyTrace(body)
    decreases body, 0
  {
    if body != [] {
      StmtMatches(body[0]);
      BodyMatches(body[1..]);
      var T, B := StmtTrace(body[0]), BodyTrace(body[1..]);
      if NoRecord(T + B) {
        assert T + B == [] + T + B && T + B == T + B + [];
        NoRecordIn([], T, B);
        NoRecordIn(T, B, []);
      }
      if AnyMatch(body[1..]) {
        var c :| c in body[1..] && HasMatch(c);
        assert c in body;
      }
      if AnyMatch(body) && !HasMatch(body[0]) {
        var c :| c in body && HasMatch(c);
        assert c in body[1..];
      }
    }
  }
}
