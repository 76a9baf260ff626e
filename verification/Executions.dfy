/** The table of executions, and the writes of the operations that run and resume them. */
module Executions {
  import opened Wrappers
  import opened History

  type ExecId = nat

  datatype Status = Running | Paused | Completed | Failed

  datatype Execution = Execution(id: ExecId, graph: GraphId, version: nat, input: Blob, output: Option<Blob>,
                                 status: Status, error: Option<string>, context: Option<Blob>)

  datatype Row = Row(exec: Execution, checkpoint: Option<Blob>)

  type Table = map<ExecId, Row>

  /** A serialised checkpoint is never empty. */
  type Checkpoint = b: Blob | b != [] witness [0]

  /** What the executor did with an execution. */
  datatype Outcome =
    | Finished(output: Option<Blob>, context: Blob)
    | Suspended(checkpoint: Checkpoint, context: Blob)
    | Broken(error: string)

  datatype Write = SaveExec(exec: Execution) | SaveCheck(id: ExecId, checkpoint: Checkpoint)

  /** Saving an execution replaces the whole row, with its checkpoint. */
  function Written(t: Table, w: Write): Table {
    match w
    case SaveExec(e) => t[e.id := Row(e, None)]
    case SaveCheck(id, blob) => if id in t then t[id := t[id].(checkpoint := Some(blob))] else t
  }

  function WrittenAll(t: Table, ws: seq<Write>): Table
    decreases |ws|
  {
    if ws == [] then t else WrittenAll(Written(t, ws[0]), ws[1..])
  }

  function HasCheckpoint(row: Row): bool {
    row.checkpoint.Some? && row.checkpoint.value != []
  }

  /** Every paused execution has a checkpoint. */
  ghost predicate Ready(t: Table) {
    forall id :: id in t && t[id].exec.status.Paused? ==> HasCheckpoint(t[id])
  }

  ghost predicate Keyed(t: Table) {
    forall id :: id in t ==> t[id].exec.id == id
  }

  // ── The writes of each operation ────────────────────────────────

  /** Resuming by the scheduler, or by the server, which may run without an audit. */
  datatype Mode = ByScheduler | ByServer(audit: bool)

  function ExecuteWrites(e: Execution, outcome: Outcome): seq<Write> {
    [SaveExec(e.(status := Running))] +
    match outcome
    case Finished(output, context) => [SaveExec(e.(status := Completed, output := output, context := Some(context)))]
    case Suspended(cp, context) => [SaveExec(e.(status := Paused, context := Some(context))), SaveCheck(e.id, cp)]
    case Broken(error) => [SaveExec(e.(status := Failed, error := Some(error), context := Some(e.input)))]
  }

  function ResumeWrites(mode: Mode, e: Execution, outcome: Outcome): seq<Write> {
    if mode == ByServer(false) then []
    else
      match outcome
      case Finished(output, context) => [SaveExec(e.(status := Completed, output := output, context := Some(context)))]
      case Suspended(cp, context) =>
        if mode.ByScheduler? then [SaveCheck(e.id, cp)]
        else [SaveExec(e.(status := Paused, context := Some(context))), SaveCheck(e.id, cp)]
      case Broken(error) =>
        if mode.ByScheduler? then [] else [SaveExec(e.(status := Failed, error := Some(error)))]
  }

  // ── All interleavings of the single writes ──────────────────────

  /** A resumption that has read its row and has not yet come to an outcome; by then the row may be
      another. */
  datatype Held = Held(mode: Mode, exec: Execution)

  /** `calls` has the writes that each call has still to make, in order. */
  datatype System = System(table: Table, held: map<nat, Held>, calls: map<nat, seq<Write>>)

  /** Between reading the row and reading the checkpoint, and between any two writes, anything may happen.
      `None` is a resumption that is refused before the executor starts. */
  datatype Action =
    | Execute(call: nat, exec: Execution, outcome: Outcome)
    | ReadRow(call: nat, mode: Mode, id: ExecId)
    | Decide(call: nat, answer: Option<Outcome>)
    | WriteNext(call: nat)

  ghost predicate Enabled(s: System, a: Action) {
    match a
    case Execute(c, e, _) => c !in s.calls && c !in s.held
    case ReadRow(c, _, id) => c !in s.calls && c !in s.held && id in s.table && s.table[id].exec.status.Paused?
    case Decide(c, answer) => c in s.held && c !in s.calls && (answer.Some? ==> CheckpointFor(s, s.held[c].exec.id))
    case WriteNext(c) => c in s.calls && s.calls[c] != []
  }

  predicate CheckpointFor(s: System, id: ExecId) {
    id in s.table && HasCheckpoint(s.table[id])
  }

  ghost function Next(s: System, a: Action): System
    requires Enabled(s, a)
  {
    match a
    case Execute(c, e, outcome) => s.(calls := s.calls[c := ExecuteWrites(e, outcome)])
    case ReadRow(c, mode, id) => s.(held := s.held[c := Held(mode, s.table[id].exec)])
    case Decide(c, answer) =>
      var ws := if answer.Some? then ResumeWrites(s.held[c].mode, s.held[c].exec, answer.value) else [];
      System(s.table, s.held - {c}, s.calls[c := ws])
    case WriteNext(c) => System(Written(s.table, s.calls[c][0]), s.held, s.calls[c := s.calls[c][1..]])
  }

  ghost predicate AboutToCheckpoint(s: System, c: nat, id: ExecId) {
    c in s.calls && s.calls[c] != [] && s.calls[c][0].SaveCheck? && s.calls[c][0].id == id
  }

  /** Whoever saves an execution as paused saves a checkpoint for it next. */
  ghost predicate Guarded(ws: seq<Write>) {
    forall i :: 0 <= i < |ws| && ws[i].SaveExec? && ws[i].exec.status.Paused? ==>
      i + 1 < |ws| && ws[i + 1].SaveCheck? && ws[i + 1].id == ws[i].exec.id
  }

  ghost predicate Inv(s: System) {
    && (forall c :: c in s.calls ==> Guarded(s.calls[c]))
    && forall id :: id in s.table && s.table[id].exec.status.Paused? && !HasCheckpoint(s.table[id]) ==>
        exists c :: AboutToCheckpoint(s, c, id)
  }

  lemma NextKeeps(s: System, a: Action)
    requires Inv(s) && Enabled(s, a)
    ensures Inv(Next(s, a))
  {
    var t := Next(s, a);
    if a.WriteNext? {
      GuardedTail(s.calls[a.call]);
    }
    forall id | id in t.table && t.table[id].exec.status.Paused? && !HasCheckpoint(t.table[id])
      ensures exists c :: AboutToCheckpoint(t, c, id)
    {
      if a.WriteNext? && s.calls[a.call][0].SaveExec? && s.calls[a.call][0].exec.id == id {
        assert AboutToCheckpoint(t, a.call, id);
      } else {
        var c :| AboutToCheckpoint(s, c, id);
        assert AboutToCheckpoint(t, c, id);
      }
    }
  }

  lemma GuardedTail(ws: seq<Write>)
    requires ws != [] && Guarded(ws)
    ensures Guarded(ws[1..])
  {
    assert forall i :: 0 <= i < |ws| - 1 ==> ws[1..][i] == ws[i + 1];
  }

  const Nothing := System(map[], map[], map[])

  ghost predicate Reachable(actions: seq<Action>, s: System)
    decreases |actions|
  {
    if actions == [] then s == Nothing
    else
      var last := actions[|actions| - 1];
      exists before :: Reachable(actions[..|actions| - 1], before) && Enabled(before, last) && s == Next(before, last)
  }

  /** However the writes of concurrent calls mix, a paused row lacks a checkpoint only while the
      call that will write one is between its two writes; with no call open, every one has it. */
  lemma {:induction false} PausedHasCheckpoint(actions: seq<Action>, s: System)
    requires Reachable(actions, s)
    ensures Inv(s)
    ensures (forall c :: c in s.calls ==> s.calls[c] == []) ==> Ready(s.table)
    decreases |actions|
  {
    if actions != [] {
      var last := actions[|actions| - 1];
      var before :| Reachable(actions[..|actions| - 1], before) && Enabled(before, last) && s == Next(before, last);
      PausedHasCheckpoint(actions[..|actions| - 1], before);
      NextKeeps(before, last);
    }
  }

  /** Two resumptions of one execution that overlap can take it out of its final state: the
      second one pauses a row that the first one completed. */
  lemma OverlapReopens(e: Execution, cp: Checkpoint, context: Blob)
    requires e.status.Paused?
    ensures var s := System(map[e.id := Row(e, Some(cp))], map[], map[]);
      var a, b := ReadRow(0, ByServer(true), e.id), ReadRow(1, ByServer(true), e.id);
      var c, d := Decide(0, Some(Finished(None, context))), Decide(1, Some(Suspended(cp, context)));
      && Enabled(s, a) && Enabled(Next(s, a), b)
      && var read := Next(Next(s, a), b);
      && Enabled(read, c) && Enabled(Next(read, c), d)
      && var both := Next(Next(read, c), d);
      && Enabled(both, WriteNext(0)) && Enabled(Next(both, WriteNext(0)), WriteNext(1))
      && var first := Next(both, WriteNext(0));
      && var second := Next(first, WriteNext(1));
      && e.id in first.table && first.table[e.id].exec.status.Completed?
      && e.id in second.table && second.table[e.id].exec.status.Paused? && !HasCheckpoint(second.table[e.id])
  {
  }

  // ── When a final row stays final ────────────────────────────────

  predicate Final(row: Row) {
    row.exec.status.Completed? || row.exec.status.Failed?
  }

  function Named(w: Write): ExecId {
    match w
    case SaveExec(e) => e.id
    case SaveCheck(id, _) => id
  }

  /** The call has read the row of this execution, or has writes to come for it. */
  ghost predicate OpenOn(s: System, c: nat, id: ExecId) {
    (c in s.held && s.held[c].exec.id == id) || (c in s.calls && WritesFor(s.calls[c], id))
  }

  ghost predicate WritesFor(ws: seq<Write>, id: ExecId) {
    exists i :: 0 <= i < |ws| && Named(ws[i]) == id
  }

  /** The action does not start a second call on an execution that has one open; an execution that
      starts has a new id. */
  ghost predicate Exclusive(s: System, a: Action) {
    match a
    case Execute(_, e, _) => e.id !in s.table && forall c :: !OpenOn(s, c, e.id)
    case ReadRow(_, _, id) => forall c :: !OpenOn(s, c, id)
    case Decide(_, _) => true
    case WriteNext(_) => true
  }

  /** A write with a final status is the last one, and all are for the same execution. */
  ghost predicate FinalLast(ws: seq<Write>) {
    && (forall i, j :: 0 <= i < |ws| && 0 <= j < |ws| ==> Named(ws[i]) == Named(ws[j]))
    && (forall i :: 0 <= i < |ws| && ws[i].SaveExec? && Final(Row(ws[i].exec, None)) ==> i == |ws| - 1)
  }

  ghost predicate OneOpen(s: System) {
    forall c, d, id :: OpenOn(s, c, id) && OpenOn(s, d, id) ==> c == d
  }

  ghost predicate FinalClosed(s: System) {
    forall c, id :: id in s.table && Final(s.table[id]) ==> !OpenOn(s, c, id)
  }

  ghost predicate ExclusiveInv(s: System) {
    && Keyed(s.table) && (forall c :: c in s.calls ==> FinalLast(s.calls[c])) && s.held.Keys !! s.calls.Keys
    && OneOpen(s) && FinalClosed(s)
  }

  lemma StartedWrites(e: Execution, mode: Mode, outcome: Outcome)
    ensures FinalLast(ExecuteWrites(e, outcome)) && FinalLast(ResumeWrites(mode, e, outcome))
    ensures forall i :: 0 <= i < |ExecuteWrites(e, outcome)| ==> Named(ExecuteWrites(e, outcome)[i]) == e.id
    ensures forall i :: 0 <= i < |ResumeWrites(mode, e, outcome)| ==> Named(ResumeWrites(mode, e, outcome)[i]) == e.id
  {
  }

  /** Nothing is opened but what was open, except on `id`, where nothing is and no row is final. */
  lemma OpensOne(s: System, t: System, c: nat, id: ExecId)
    requires ExclusiveInv(s) && t.table == s.table && t.held.Keys !! t.calls.Keys
    requires forall d :: d in t.calls ==> FinalLast(t.calls[d])
    requires forall d, x :: OpenOn(t, d, x) ==> OpenOn(s, d, x) || (d == c && x == id)
    requires (forall d :: OpenOn(s, d, id) ==> d == c) && (id in s.table ==> !Final(s.table[id]))
    ensures ExclusiveInv(t)
  {
  }

  lemma ExecuteKeeps(s: System, c: nat, e: Execution, outcome: Outcome)
    requires ExclusiveInv(s) && Enabled(s, Execute(c, e, outcome)) && Exclusive(s, Execute(c, e, outcome))
    ensures ExclusiveInv(Next(s, Execute(c, e, outcome)))
  {
    StartedWrites(e, ByScheduler, outcome);
    OpensOne(s, Next(s, Execute(c, e, outcome)), c, e.id);
  }

  lemma ReadKeeps(s: System, c: nat, mode: Mode, id: ExecId)
    requires ExclusiveInv(s) && Enabled(s, ReadRow(c, mode, id)) && Exclusive(s, ReadRow(c, mode, id))
    ensures ExclusiveInv(Next(s, ReadRow(c, mode, id)))
  {
    OpensOne(s, Next(s, ReadRow(c, mode, id)), c, id);
  }

  lemma DecideKeeps(s: System, c: nat, answer: Option<Outcome>)
    requires ExclusiveInv(s) && Enabled(s, Decide(c, answer))
    ensures ExclusiveInv(Next(s, Decide(c, answer)))
  {
    var e := s.held[c].exec;
    if answer.Some? {
      StartedWrites(e, s.held[c].mode, answer.value);
    }
    assert OpenOn(s, c, e.id);
    OpensOne(s, Next(s, Decide(c, answer)), c, e.id);
  }

  lemma WriteKeeps(s: System, c: nat)
    requires ExclusiveInv(s) && Enabled(s, WriteNext(c))
    ensures ExclusiveInv(Next(s, WriteNext(c)))
    ensures forall id :: id in s.table && Final(s.table[id]) ==>
      id in Next(s, WriteNext(c)).table && Next(s, WriteNext(c)).table[id] == s.table[id]
  {
    var t, ws := Next(s, WriteNext(c)), s.calls[c];
    var id := Named(ws[0]);
    assert WritesFor(ws, id) && OpenOn(s, c, id);
    assert forall i :: 0 <= i < |ws| - 1 ==> ws[1..][i] == ws[i + 1];
    forall d, x | OpenOn(t, d, x)
      ensures OpenOn(s, d, x)
    {
      if d in t.calls && WritesFor(t.calls[d], x) {
        var i :| 0 <= i < |t.calls[d]| && Named(t.calls[d][i]) == x;
        assert d == c ==> Named(s.calls[d][i + 1]) == x;
      }
    }
    assert FinalLast(ws[1..]);
    forall d, x | x in t.table && Final(t.table[x])
      ensures !OpenOn(t, d, x)
    {
    }
  }

  lemma ExclusiveKeeps(s: System, a: Action)
    requires ExclusiveInv(s) && Enabled(s, a) && Exclusive(s, a)
    ensures ExclusiveInv(Next(s, a))
    ensures forall id :: id in s.table && Final(s.table[id]) ==> id in Next(s, a).table && Next(s, a).table[id] == s.table[id]
  {
    hide ExclusiveInv, FinalLast, OpenOn;
    match a
    case Execute(c, e, outcome) => ExecuteKeeps(s, c, e, outcome);
    case ReadRow(c, mode, id) => ReadKeeps(s, c, mode, id);
    case Decide(c, answer) => DecideKeeps(s, c, answer);
    case WriteNext(c) => WriteKeeps(s, c);
  }

  /** A run in which no execution ever has two open calls. */
  ghost predicate ExclusiveRun(s: System, actions: seq<Action>, r: System)
    decreases |actions|
  {
    if actions == [] then r == s
    else Enabled(s, actions[0]) && Exclusive(s, actions[0]) && ExclusiveRun(Next(s, actions[0]), actions[1..], r)
  }

  lemma {:induction false} ExclusiveRunKeeps(s: System, actions: seq<Action>, r: System)
    requires ExclusiveInv(s) && ExclusiveRun(s, actions, r)
    ensures ExclusiveInv(r)
    ensures forall id :: id in s.table && Final(s.table[id]) ==> id in r.table && r.table[id] == s.table[id]
    decreases |actions|
  {
    if actions != [] {
      ExclusiveKeeps(s, actions[0]);
      ExclusiveRunKeeps(Next(s, actions[0]), actions[1..], r);
    }
  }

  /** However single writes interleave: as long as no execution has two calls open at once, a row
      that is completed or failed never changes again. */
  lemma FinalRowsStay(before: seq<Action>, s: System, after: seq<Action>, r: System, id: ExecId)
    requires ExclusiveRun(Nothing, before, s) && ExclusiveRun(s, after, r)
    requires id in s.table && Final(s.table[id])
    ensures id in r.table && r.table[id] == s.table[id]
  {
    ExclusiveRunKeeps(Nothing, before, s);
    ExclusiveRunKeeps(s, after, r);
  }

  // ── Exactly when a final row is settled ─────────────────────────

  /** A run of any calls, overlapping or not, in which executions start under new ids. */
  ghost predicate Continues(s: System, actions: seq<Action>, r: System)
    decreases |actions|
  {
    if actions == [] then r == s
    else
      && Enabled(s, actions[0]) && (actions[0].Execute? ==> actions[0].exec.id !in s.table)
      && Continues(Next(s, actions[0]), actions[1..], r)
  }

  /** The write would leave this row of this execution as it is. */
  predicate Harmless(w: Write, id: ExecId, row: Row) {
    Named(w) == id ==>
      match w
      case SaveExec(e) => Row(e, None) == row
      case SaveCheck(_, blob) => row.checkpoint == Some(blob)
  }

  ghost predicate AllHarmless(ws: seq<Write>, id: ExecId, row: Row) {
    forall i :: 0 <= i < |ws| ==> Harmless(ws[i], id, row)
  }

  /** The resumption will write nothing about the row: it is about another one, is not recorded, or will find
      no checkpoint. */
  predicate Idle(h: Held, id: ExecId, row: Row) {
    h.exec.id != id || h.mode == ByServer(false) || !HasCheckpoint(row)
  }

  /** No open call has a write to come that would change the row, or can come to one. */
  ghost predicate Settled(s: System, id: ExecId)
    requires id in s.table
  {
    && (forall c :: c in s.calls ==> AllHarmless(s.calls[c], id, s.table[id]))
    && (forall c :: c in s.held ==> Idle(s.held[c], id, s.table[id]))
  }

  lemma HarmlessWrite(t: Table, w: Write, id: ExecId)
    requires id in t
    ensures id in Written(t, w) && (Written(t, w)[id] == t[id] <==> Harmless(w, id, t[id]))
    ensures Keyed(t) ==> Keyed(Written(t, w))
  {
  }

  lemma SettledKeeps(s: System, a: Action, id: ExecId)
    requires Keyed(s.table) && id in s.table && Final(s.table[id]) && Settled(s, id)
    requires Enabled(s, a) && (a.Execute? ==> a.exec.id !in s.table)
    ensures var t := Next(s, a); Keyed(t.table) && id in t.table && t.table[id] == s.table[id] && Settled(t, id)
  {
    match a
    case Execute(c, e, outcome) => StartedWrites(e, ByScheduler, outcome);
    case ReadRow(c, mode, x) =>
    case Decide(c, answer) =>
      if answer.Some? {
        StartedWrites(s.held[c].exec, s.held[c].mode, answer.value);
      }
    case WriteNext(c) =>
      var ws := s.calls[c];
      assert AllHarmless(ws, id, s.table[id]);
      HarmlessWrite(s.table, ws[0], id);
      assert AllHarmless(ws[1..], id, s.table[id]) by {
        assert forall i :: 0 <= i < |ws| - 1 ==> ws[1..][i] == ws[i + 1];
      }
  }

  lemma {:induction false} SettledStays(s: System, actions: seq<Action>, r: System, id: ExecId)
    requires Keyed(s.table) && id in s.table && Final(s.table[id]) && Settled(s, id) && Continues(s, actions, r)
    ensures id in r.table && r.table[id] == s.table[id]
    decreases |actions|
  {
    if actions != [] {
      SettledKeeps(s, actions[0], id);
      SettledStays(Next(s, actions[0]), actions[1..], r, id);
    }
  }

  /** If a call has a write to come that would change the row, letting that call write does change it. */
  lemma {:induction false} UnsettledChanges(s: System, c: nat, id: ExecId) returns (actions: seq<Action>, r: System)
    requires id in s.table && c in s.calls && !AllHarmless(s.calls[c], id, s.table[id])
    ensures Continues(s, actions, r) && id in r.table && r.table[id] != s.table[id]
    decreases |s.calls[c]|
  {
    var ws := s.calls[c];
    var t := Next(s, WriteNext(c));
    HarmlessWrite(s.table, ws[0], id);
    if Harmless(ws[0], id, s.table[id]) {
      var i :| 0 <= i < |ws| && !Harmless(ws[i], id, s.table[id]);
      assert t.calls[c][i - 1] == ws[i];
      actions, r := UnsettledChanges(t, c, id);
      assert ([WriteNext(c)] + actions)[1..] == actions;
    } else {
      actions, r := [], t;
      assert [WriteNext(c)][1..] == [];
    }
    actions := [WriteNext(c)] + actions;
  }

  /** A resumption that has read the row, and finds a checkpoint, can complete it anew. */
  lemma HeldChanges(s: System, c: nat, id: ExecId) returns (actions: seq<Action>, r: System)
    requires id in s.table && c in s.held && c !in s.calls && !Idle(s.held[c], id, s.table[id])
    ensures Continues(s, actions, r) && id in r.table && r.table[id] != s.table[id]
  {
    var decide := Decide(c, Some(Finished(None, [])));
    var t := Next(s, decide);
    assert |t.calls[c]| == 1;
    r := Next(t, WriteNext(c));
    actions := [decide, WriteNext(c)];
    assert actions[1..] == [WriteNext(c)] && [WriteNext(c)][1..] == [];
    assert Continues(t, [WriteNext(c)], r);
  }

  /** A final row stays as it is in every continuation, with whatever calls overlap, if and only if no call
      that is open now has a write to come that would change it, or can come to one. */
  lemma FinalRowStaysIff(s: System, id: ExecId)
    requires Keyed(s.table) && s.held.Keys !! s.calls.Keys && id in s.table && Final(s.table[id])
    ensures Settled(s, id) <==>
            forall actions: seq<Action>, r: System :: Continues(s, actions, r) ==> id in r.table && r.table[id] == s.table[id]
  {
    if Settled(s, id) {
      forall actions: seq<Action>, r: System | Continues(s, actions, r)
        ensures id in r.table && r.table[id] == s.table[id]
      {
        SettledStays(s, actions, r, id);
      }
    } else {
      var actions, r := OpenChanges(s, id);
    }
  }

  lemma OpenChanges(s: System, id: ExecId) returns (actions: seq<Action>, r: System)
    requires s.held.Keys !! s.calls.Keys && id in s.table && !Settled(s, id)
    ensures Continues(s, actions, r) && id in r.table && r.table[id] != s.table[id]
  {
    hide Continues, AllHarmless, Idle;
    if c :| c in s.calls && !AllHarmless(s.calls[c], id, s.table[id]) {
      actions, r := UnsettledChanges(s, c, id);
    } else {
      var c :| c in s.held && !Idle(s.held[c], id, s.table[id]);
      actions, r := HeldChanges(s, c, id);
    }
  }

  /** In the reachable states every row is under its own id. */
  lemma {:induction false} ReachableKeyed(actions: seq<Action>, s: System)
    requires Reachable(actions, s)
    ensures Keyed(s.table) && s.held.Keys !! s.calls.Keys
    decreases |actions|
  {
    if actions != [] {
      var last := actions[|actions| - 1];
      var before :| Reachable(actions[..|actions| - 1], before) && Enabled(before, last) && s == Next(before, last);
      ReachableKeyed(actions[..|actions| - 1], before);
    }
  }

  // ── One operation after the other ───────────────────────────────

  datatype Op =
    | ExecuteOp(exec: Execution, audit: bool, outcome: Outcome)
    | ResumeOp(mode: Mode, id: ExecId, answer: Option<Outcome>)

  /** A resumption that is refused before the executor starts writes nothing. */
  function OpWrites(t: Table, op: Op): seq<Write> {
    match op
    case ExecuteOp(e, audit, outcome) => if audit then ExecuteWrites(e, outcome) else []
    case ResumeOp(mode, id, answer) =>
      if id in t && t[id].exec.status.Paused? && HasCheckpoint(t[id]) && answer.Some?
      then ResumeWrites(mode, t[id].exec, answer.value)
      else []
  }

  function After(t: Table, op: Op): Table {
    WrittenAll(t, OpWrites(t, op))
  }

  function AfterAll(t: Table, ops: seq<Op>): Table
    decreases |ops|
  {
    if ops == [] then t else AfterAll(After(t, ops[0]), ops[1..])
  }

  lemma WrittenOne(t: Table, w: Write)
    ensures WrittenAll(t, [w]) == Written(t, w)
  {
  }

  lemma WrittenTwo(t: Table, v: Write, w: Write)
    ensures WrittenAll(t, [v, w]) == Written(Written(t, v), w)
  {
    assert [v, w][1..] == [w];
    WrittenOne(Written(t, v), w);
  }

  lemma WrittenThree(t: Table, u: Write, v: Write, w: Write)
    ensures WrittenAll(t, [u, v, w]) == Written(Written(Written(t, u), v), w)
  {
    assert [u, v, w][1..] == [v, w];
    WrittenTwo(Written(t, u), v, w);
  }

  /** Where one operation leaves its row. */
  function ExecutedRow(e: Execution, outcome: Outcome): Row {
    match outcome
    case Finished(output, context) => Row(e.(status := Completed, output := output, context := Some(context)), None)
    case Suspended(cp, context) => Row(e.(status := Paused, context := Some(context)), Some(cp))
    case Broken(error) => Row(e.(status := Failed, error := Some(error), context := Some(e.input)), None)
  }

  function ResumedRow(mode: Mode, row: Row, outcome: Outcome): Row {
    if mode == ByServer(false) then row
    else
      match outcome
      case Finished(output, context) => Row(row.exec.(status := Completed, output := output, context := Some(context)), None)
      case Suspended(cp, context) =>
        if mode.ByScheduler? then row.(checkpoint := Some(cp))
        else Row(row.exec.(status := Paused, context := Some(context)), Some(cp))
      case Broken(error) =>
        if mode.ByScheduler? then row else Row(row.exec.(status := Failed, error := Some(error)), None)
  }

  lemma ExecuteResult(t: Table, e: Execution, outcome: Outcome)
    ensures WrittenAll(t, ExecuteWrites(e, outcome)) == t[e.id := ExecutedRow(e, outcome)]
  {
    var first := SaveExec(e.(status := Running));
    match outcome
    case Finished(output, context) =>
      WrittenTwo(t, first, SaveExec(e.(status := Completed, output := output, context := Some(context))));
    case Suspended(cp, context) =>
      WrittenThree(t, first, SaveExec(e.(status := Paused, context := Some(context))), SaveCheck(e.id, cp));
    case Broken(error) =>
      WrittenTwo(t, first, SaveExec(e.(status := Failed, error := Some(error), context := Some(e.input))));
  }

  lemma ResumeResult(t: Table, mode: Mode, id: ExecId, outcome: Outcome)
    requires id in t && t[id].exec.id == id
    ensures WrittenAll(t, ResumeWrites(mode, t[id].exec, outcome)) == t[id := ResumedRow(mode, t[id], outcome)]
  {
    var e := t[id].exec;
    var ws := ResumeWrites(mode, e, outcome);
    if |ws| == 1 {
      assert ws == [ws[0]];
      WrittenOne(t, ws[0]);
    } else if |ws| == 2 {
      assert ws == [ws[0], ws[1]];
      WrittenTwo(t, ws[0], ws[1]);
    }
  }

  /** An operation starts with a new id. */
  ghost predicate Fresh(t: Table, op: Op) {
    op.ExecuteOp? ==> op.exec.id !in t
  }

  ghost predicate FreshAll(t: Table, ops: seq<Op>)
    decreases |ops|
  {
    ops == [] || (Fresh(t, ops[0]) && FreshAll(After(t, ops[0]), ops[1..]))
  }

  lemma OpKeeps(t: Table, op: Op)
    requires Keyed(t) && Ready(t) && Fresh(t, op)
    ensures Keyed(After(t, op)) && Ready(After(t, op)) && t.Keys <= After(t, op).Keys
    ensures forall id :: id in t && !t[id].exec.status.Paused? ==> After(t, op)[id] == t[id]
  {
    match op
    case ExecuteOp(e, audit, outcome) =>
      if audit {
        ExecuteResult(t, e, outcome);
      }
    case ResumeOp(mode, id, answer) =>
      if OpWrites(t, op) != [] {
        ResumeResult(t, mode, id, answer.value);
      }
  }

  /** At the boundaries of operations a paused row always has its checkpoint, and a row that is
      completed or failed never changes again. */
  lemma {:induction false} RunsKeep(t: Table, ops: seq<Op>)
    requires Keyed(t) && Ready(t) && FreshAll(t, ops)
    ensures Keyed(AfterAll(t, ops)) && Ready(AfterAll(t, ops))
    ensures forall id :: id in t && !t[id].exec.status.Paused? ==> id in AfterAll(t, ops) && AfterAll(t, ops)[id] == t[id]
    decreases |ops|
  {
    if ops != [] {
      OpKeeps(t, ops[0]);
      RunsKeep(After(t, ops[0]), ops[1..]);
    }
  }

  // ── The table as the storage keeps it ───────────────────────────

  class ExecutionStore {
    var table: Table

    constructor ()
      ensures table == map[]
    {
      table := map[];
    }

    method SaveExecution(e: Execution)
      modifies this
      ensures table == Written(old(table), SaveExec(e))
    {
      table := table[e.id := Row(e, None)];
    }

    method SaveCheckpoint(id: ExecId, checkpoint: Checkpoint)
      modifies this
      ensures table == Written(old(table), SaveCheck(id, checkpoint))
    {
      if id in table {
        table := table[id := table[id].(checkpoint := Some(checkpoint))];
      }
    }

    /** None for an unknown id, and the empty blob for a row without a checkpoint. */
    method LoadCheckpoint(id: ExecId) returns (blob: Option<Blob>)
      ensures blob.None? <==> id !in table
      ensures blob.Some? ==> (blob.value != [] <==> HasCheckpoint(table[id]))
      ensures blob.Some? && blob.value != [] ==> table[id].checkpoint == blob
    {
      if id !in table {
        return None;
      }
      blob := Some(if table[id].checkpoint.Some? then table[id].checkpoint.value else []);
    }

    /** The paused executions, each once, in no particular order. */
    method ListPaused() returns (paused: seq<Execution>)
      requires Keyed(table)
      ensures Lists(paused, table)
    {
      paused := [];
      var rest := table.Keys;
      while rest != {}
        invariant rest <= table.Keys
        invariant forall i, j :: 0 <= i < j < |paused| ==> paused[i].id != paused[j].id
        invariant forall i :: 0 <= i < |paused| ==> paused[i].id in table.Keys - rest && paused[i] == table[paused[i].id].exec
        invariant forall id :: id in table.Keys - rest ==>
          (table[id].exec.status.Paused? <==> exists i :: 0 <= i < |paused| && paused[i].id == id)
      {
        var id: ExecId :| id in rest;
        ghost var before := paused;
        if table[id].exec.status.Paused? {
          paused := paused + [table[id].exec];
          assert paused[|before|].id == id;
        }
        rest := rest - {id};
        assert forall i :: 0 <= i < |before| ==> paused[i] == before[i];
      }
    }
  }

  ghost predicate Lists(paused: seq<Execution>, t: Table) {
    && (forall i, j :: 0 <= i < j < |paused| ==> paused[i].id != paused[j].id)
    && (forall i :: 0 <= i < |paused| ==> paused[i].id in t && paused[i] == t[paused[i].id].exec)
    && (forall id :: id in t ==> (t[id].exec.status.Paused? <==> exists i :: 0 <= i < |paused| && paused[i].id == id))
  }
}
