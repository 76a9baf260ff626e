/** Running, resuming and scheduling executions, with the executor as an unknown function. */
module Scheduler {
  import opened Wrappers
  import opened History
  import opened Executions

  /** What a resumption in a given round comes to; None if it is refused before the executor
      starts, because the checkpoint or the plan cannot be read or the environment lacks a key. */
  type Executor = (nat, Execution, Blob) -> Option<Outcome>

  datatype Kind = Done | Again | Errored

  datatype Summary = Summary(processed: nat, completed: nat, stillPaused: nat, failed: nat)

  const NoneYet := Summary(0, 0, 0, 0)

  function Count(s: Summary, kind: Kind): Summary {
    match kind
    case Done => s.(completed := s.completed + 1)
    case Again => s.(stillPaused := s.stillPaused + 1)
    case Errored => s.(failed := s.failed + 1)
  }

  // ── One resumption ──────────────────────────────────────────────

  function Answer(executor: Executor, round: nat, t: Table, id: ExecId): Option<Outcome> {
    if id in t && t[id].exec.status.Paused? && HasCheckpoint(t[id])
    then executor(round, t[id].exec, t[id].checkpoint.value)
    else None
  }

  function KindOf(answer: Option<Outcome>): Kind {
    match answer
    case None => Errored
    case Some(Finished(_, _)) => Done
    case Some(Suspended(_, _)) => Again
    case Some(Broken(_)) => Errored
  }

  function Resumed(mode: Mode, executor: Executor, round: nat, t: Table, id: ExecId): Table {
    After(t, ResumeOp(mode, id, Answer(executor, round, t, id)))
  }

  /** What one resumption does: only its row changes; it is completed exactly if the executor
      finished, and a failed one is left alone by the scheduler. */
  lemma ResumedRows(mode: Mode, executor: Executor, round: nat, t: Table, id: ExecId)
    requires Keyed(t) && Ready(t)
    ensures var u := Resumed(mode, executor, round, t, id);
      && Keyed(u) && Ready(u) && u.Keys == t.Keys
      && (forall x :: x in t && x != id ==> u[x] == t[x])
      && (id in t && t[id].exec.status.Paused? && mode != ByServer(false) ==>
            match KindOf(Answer(executor, round, t, id))
            case Done => u[id].exec.status.Completed?
            case Again => u[id].exec.status.Paused?
            case Errored => if mode.ByScheduler? then u[id] == t[id] else u[id].exec.status.Failed? || u[id] == t[id])
  {
    var op := ResumeOp(mode, id, Answer(executor, round, t, id));
    OpKeeps(t, op);
    if Answer(executor, round, t, id).Some? {
      ResumeResult(t, mode, id, op.answer.value);
    }
  }

  // ── One round ───────────────────────────────────────────────────

  datatype Round = Round(table: Table, completed: set<ExecId>, again: set<ExecId>, failed: set<ExecId>)

  function Sorted(r: Round, id: ExecId, kind: Kind): Round {
    match kind
    case Done => r.(completed := r.completed + {id})
    case Again => r.(again := r.again + {id})
    case Errored => r.(failed := r.failed + {id})
  }

  function Next(mode: Mode, executor: Executor, round: nat, r: Round, id: ExecId): Round {
    Sorted(r, id, KindOf(Answer(executor, round, r.table, id))).(table := Resumed(mode, executor, round, r.table, id))
  }

  /** Resumes the executions of a list one after the other. */
  function ResumedAll(mode: Mode, executor: Executor, round: nat, t: Table, ids: seq<ExecId>): Round {
    if ids == [] then Round(t, {}, {}, {})
    else Next(mode, executor, round, ResumedAll(mode, executor, round, t, ids[..|ids| - 1]), ids[|ids| - 1])
  }

  ghost predicate Distinct(ids: seq<ExecId>) {
    forall i, j :: 0 <= i < j < |ids| ==> ids[i] != ids[j]
  }

  /** A round splits its executions into three disjoint kinds, touches no other row, and
      completes exactly the rows that it counts as completed. A row that failed is left alone by the
      scheduler; the server may record the failure. */
  ghost predicate Split(mode: Mode, t: Table, ids: seq<ExecId>, r: Round) {
    && Kinds(ids, r) && Rows(mode, t, ids, r)
  }

  ghost predicate Rows(mode: Mode, t: Table, ids: seq<ExecId>, r: Round) {
    && Keyed(r.table) && Ready(r.table) && r.table.Keys == t.Keys
    && (mode == ByServer(false) ==> r.table == t)
    && forall id :: id in t ==> RowFits(mode, t[id], r.table[id], id, ids, r)
  }

  ghost predicate RowFits(mode: Mode, before: Row, after: Row, id: ExecId, ids: seq<ExecId>, r: Round) {
    && (id !in ids ==> after == before)
    && (mode != ByServer(false) ==>
          && (id in r.completed ==> after.exec.status.Completed?)
          && (id in r.again ==> after.exec.status.Paused?)
          && (id in r.failed ==> after == before || (mode == ByServer(true) && after.exec.status.Failed?)))
  }

  ghost predicate Kinds(ids: seq<ExecId>, r: Round) {
    && (forall id :: id in ids <==> id in r.completed || id in r.again || id in r.failed)
    && r.completed !! r.again && r.completed !! r.failed && r.again !! r.failed
    && |r.completed| + |r.again| + |r.failed| == |ids|
  }

  lemma KindsNext(ids: seq<ExecId>, r: Round, id: ExecId, kind: Kind)
    requires Kinds(ids, r) && id !in ids
    ensures Kinds(ids + [id], Sorted(r, id, kind))
  {
  }

  lemma RowsNext(mode: Mode, executor: Executor, round: nat, t: Table, ids: seq<ExecId>, r: Round, id: ExecId)
    requires Split(mode, t, ids, r) && id !in ids && id in t && t[id].exec.status.Paused?
    ensures Rows(mode, t, ids + [id], Next(mode, executor, round, r, id))
  {
    hide Resumed, Answer, Ready, Keyed, KindOf, RowFits;
    ResumedRows(mode, executor, round, r.table, id);
    NoAudit(executor, round, r.table, id);
    var u := Next(mode, executor, round, r, id);
    forall x | x in t
      ensures RowFits(mode, t[x], u.table[x], x, ids + [id], u)
    {
      assert RowFits(mode, t[x], r.table[x], x, ids, r);
      if x == id {
        assert r.table[x] == t[x] by { RowUntouched(mode, t[x], r.table[x], x, ids, r); }
        NewRowFits(mode, t[x], u.table[x], x, ids, r, KindOf(Answer(executor, round, r.table, id)), u);
      } else {
        OldRowFits(mode, t[x], u.table[x], x, ids, r, id, KindOf(Answer(executor, round, r.table, id)), u);
      }
    }
  }

  lemma RowUntouched(mode: Mode, before: Row, after: Row, id: ExecId, ids: seq<ExecId>, r: Round)
    requires RowFits(mode, before, after, id, ids, r) && id !in ids
    ensures after == before
  {
  }

  lemma NewRowFits(mode: Mode, before: Row, after: Row, id: ExecId, ids: seq<ExecId>, r: Round, kind: Kind, u: Round)
    requires Kinds(ids, r) && id !in ids && u == Sorted(r, id, kind).(table := u.table)
    requires mode != ByServer(false) ==>
      match kind
      case Done => after.exec.status.Completed?
      case Again => after.exec.status.Paused?
      case Errored => if mode.ByScheduler? then after == before else after.exec.status.Failed? || after == before
    ensures RowFits(mode, before, after, id, ids + [id], u)
  {
  }

  lemma OldRowFits(mode: Mode, before: Row, after: Row, x: ExecId, ids: seq<ExecId>, r: Round, id: ExecId, kind: Kind, u: Round)
    requires RowFits(mode, before, after, x, ids, r) && x != id && u == Sorted(r, id, kind).(table := u.table)
    ensures RowFits(mode, before, after, x, ids + [id], u)
  {
  }

  lemma NoAudit(executor: Executor, round: nat, t: Table, id: ExecId)
    ensures Resumed(ByServer(false), executor, round, t, id) == t
  {
  }

  lemma {:induction false} RoundSplits(mode: Mode, executor: Executor, round: nat, t: Table, ids: seq<ExecId>)
    requires Keyed(t) && Ready(t) && Distinct(ids)
    requires forall id :: id in ids ==> id in t && t[id].exec.status.Paused?
    ensures Split(mode, t, ids, ResumedAll(mode, executor, round, t, ids))
  {
    hide Keyed, Ready, Kinds, Rows, Resumed, Answer, KindOf, Sorted;
    if ids == [] {
      SplitNothing(mode, t);
    } else {
      var front, id := ids[..|ids| - 1], ids[|ids| - 1];
      RoundSplits(mode, executor, round, t, front);
      assert ids == front + [id] && id !in front && id in ids;
      var r := ResumedAll(mode, executor, round, t, front);
      KindsNext(front, r, id, KindOf(Answer(executor, round, r.table, id)));
      KindsOnly(ids, Sorted(r, id, KindOf(Answer(executor, round, r.table, id))), Next(mode, executor, round, r, id));
      RowsNext(mode, executor, round, t, front, r, id);
    }
  }

  lemma SplitNothing(mode: Mode, t: Table)
    requires Keyed(t) && Ready(t)
    ensures Split(mode, t, [], Round(t, {}, {}, {}))
  {
  }

  lemma KindsOnly(ids: seq<ExecId>, r: Round, u: Round)
    requires Kinds(ids, r) && u == r.(table := u.table)
    ensures Kinds(ids, u)
  {
  }

  ghost function PausedIn(t: Table): set<ExecId> {
    set id | id in t && t[id].exec.status.Paused?
  }

  ghost function CompletedIn(t: Table): set<ExecId> {
    set id | id in t && t[id].exec.status.Completed?
  }

  /** From `t` to `u` some paused rows were completed, some have a new checkpoint, and all
      other rows are as they were. */
  ghost predicate Progress(t: Table, u: Table) {
    && u.Keys == t.Keys
    && PausedIn(u) <= PausedIn(t)
    && PausedIn(t) - PausedIn(u) <= CompletedIn(u)
    && forall id :: id in t && id !in PausedIn(t) ==> u[id] == t[id]
  }

  /** How many rows went from paused to completed. */
  ghost function CompletedBetween(t: Table, u: Table): nat {
    |PausedIn(t) - PausedIn(u)|
  }

  lemma RoundProgress(executor: Executor, round: nat, t: Table, ids: seq<ExecId>)
    requires Keyed(t) && Ready(t) && Distinct(ids) && forall id :: id in ids <==> id in PausedIn(t)
    ensures var r := ResumedAll(ByScheduler, executor, round, t, ids);
      && Keyed(r.table) && Ready(r.table) && Progress(t, r.table)
      && |r.completed| == CompletedBetween(t, r.table)
      && |r.completed| + |r.again| + |r.failed| == |ids|
      && PausedIn(r.table) == r.again + r.failed
  {
    RoundSplits(ByScheduler, executor, round, t, ids);
    SplitProgress(t, ids, ResumedAll(ByScheduler, executor, round, t, ids));
  }

  lemma SplitProgress(t: Table, ids: seq<ExecId>, r: Round)
    requires Split(ByScheduler, t, ids, r) && forall id :: id in ids <==> id in PausedIn(t)
    ensures Progress(t, r.table) && PausedIn(t) - PausedIn(r.table) == r.completed
    ensures PausedIn(r.table) == r.again + r.failed
  {
    hide Keyed, Ready;
    assert forall id :: id in t ==> RowFits(ByScheduler, t[id], r.table[id], id, ids, r);
    assert PausedIn(r.table) == r.again + r.failed;
    assert PausedIn(t) - PausedIn(r.table) == r.completed;
  }

  lemma ProgressAdds(t: Table, u: Table, v: Table)
    requires Progress(t, u) && Progress(u, v)
    ensures Progress(t, v) && CompletedBetween(t, v) == CompletedBetween(t, u) + CompletedBetween(u, v)
  {
    forall id | id in t && id !in PausedIn(t)
      ensures v[id] == t[id]
    {
      assert id !in PausedIn(u);
    }
    forall id | id in PausedIn(t) - PausedIn(v)
      ensures id in CompletedIn(v)
    {
      if id !in PausedIn(u) {
        assert id in CompletedIn(u) && v[id] == u[id];
      }
    }
    var x, y := PausedIn(t) - PausedIn(u), PausedIn(u) - PausedIn(v);
    assert PausedIn(t) - PausedIn(v) == x + y && x !! y;
  }

  function Ids(execs: seq<Execution>): (r: seq<ExecId>)
    ensures |r| == |execs| && forall i :: 0 <= i < |execs| ==> r[i] == execs[i].id
  {
    seq(|execs|, i requires 0 <= i < |execs| => execs[i].id)
  }

  lemma ListedIds(paused: seq<Execution>, t: Table)
    requires Lists(paused, t)
    ensures Distinct(Ids(paused)) && forall id :: id in Ids(paused) <==> id in PausedIn(t)
  {
    forall id | id in PausedIn(t)
      ensures id in Ids(paused)
    {
      var i :| 0 <= i < |paused| && paused[i].id == id;
      assert Ids(paused)[i] == id;
    }
    forall id | id in Ids(paused)
      ensures id in PausedIn(t)
    {
      var i :| 0 <= i < |paused| && Ids(paused)[i] == id;
      assert paused[i].id in t;
    }
  }

  /** In this round the executor pauses something again. */
  ghost predicate Suspends(executor: Executor, round: nat) {
    exists e, b :: executor(round, e, b).Some? && executor(round, e, b).value.Suspended?
  }

  /** In this round the executors agree on what each of these executions has stored. */
  ghost predicate Agree(f: Executor, g: Executor, round: nat, t: Table, ids: seq<ExecId>) {
    forall id, checkpoint :: id in ids && id in t && t[id].checkpoint == Some(checkpoint) ==>
      f(round, t[id].exec, checkpoint) == g(round, t[id].exec, checkpoint)
  }

  /** A round depends on the executor through the stored checkpoints only: executors that agree on them leave
      the same table and the same kinds. */
  lemma {:induction false} CheckpointsDecide(mode: Mode, f: Executor, g: Executor, round: nat, t: Table, ids: seq<ExecId>)
    requires Keyed(t) && Ready(t) && Distinct(ids) && forall id :: id in ids ==> id in t && t[id].exec.status.Paused?
    requires Agree(f, g, round, t, ids)
    ensures ResumedAll(mode, f, round, t, ids) == ResumedAll(mode, g, round, t, ids)
  {
    hide Keyed, Ready, Resumed;
    if ids != [] {
      var front, id := ids[..|ids| - 1], ids[|ids| - 1];
      assert ids == front + [id] && id !in front && id in ids;
      CheckpointsDecide(mode, f, g, round, t, front);
      RoundSplits(mode, f, round, t, front);
      var r := ResumedAll(mode, f, round, t, front);
      assert RowFits(mode, t[id], r.table[id], id, front, r);
      assert r.table[id] == t[id];
      SameResumed(mode, f, g, round, r.table, id);
    }
  }

  lemma SameResumed(mode: Mode, f: Executor, g: Executor, round: nat, t: Table, id: ExecId)
    requires id in t && (t[id].checkpoint.Some? ==>
               f(round, t[id].exec, t[id].checkpoint.value) == g(round, t[id].exec, t[id].checkpoint.value))
    ensures Answer(f, round, t, id) == Answer(g, round, t, id) && Resumed(mode, f, round, t, id) == Resumed(mode, g, round, t, id)
  {
  }

  /** What a round makes of a paused row, and how it counts it: the executor goes on from the row's own
      checkpoint. */
  ghost predicate Carried(executor: Executor, round: nat, before: Row, after: Row, id: ExecId, r: Round) {
    && before.checkpoint.Some?
    && match executor(round, before.exec, before.checkpoint.value)
       case Some(Finished(output, context)) =>
         && after == Row(before.exec.(status := Completed, output := output, context := Some(context)), None)
         && id in r.completed
       case Some(Suspended(next, _)) => after == Row(before.exec, Some(next)) && id in r.again
       case _ => after == before && id in r.failed
  }

  lemma {:induction false} RoundCarries(executor: Executor, round: nat, t: Table, ids: seq<ExecId>)
    requires Keyed(t) && Ready(t) && Distinct(ids) && forall id :: id in ids ==> id in t && t[id].exec.status.Paused?
    ensures var r := ResumedAll(ByScheduler, executor, round, t, ids);
      r.table.Keys == t.Keys && forall id :: id in ids ==> Carried(executor, round, t[id], r.table[id], id, r)
  {
    hide Resumed, Answer, Sorted, KindOf;
    RoundSplits(ByScheduler, executor, round, t, ids);
    if ids != [] {
      var front, id := ids[..|ids| - 1], ids[|ids| - 1];
      assert ids == front + [id] && id !in front && id in ids;
      RoundCarries(executor, round, t, front);
      RoundSplits(ByScheduler, executor, round, t, front);
      var r := ResumedAll(ByScheduler, executor, round, t, front);
      assert RowFits(ByScheduler, t[id], r.table[id], id, front, r);
      assert r.table[id] == t[id];
      hide ResumedAll, Split, Keyed, Ready;
      CarriesNext(executor, round, t, r, id);
      forall x | x in front
        ensures Carried(executor, round, t[x], Next(ByScheduler, executor, round, r, id).table[x], x, Next(ByScheduler, executor, round, r, id))
      {
        CarriedOn(executor, round, t[x], r, x, id);
      }
    }
  }

  lemma CarriesNext(executor: Executor, round: nat, t: Table, r: Round, id: ExecId)
    requires id in t && id in r.table && r.table[id] == t[id] && t[id].exec.id == id && t[id].exec.status.Paused? && HasCheckpoint(t[id])
    ensures var u := Next(ByScheduler, executor, round, r, id);
      id in u.table && Carried(executor, round, t[id], u.table[id], id, u)
  {
    var answer := Answer(executor, round, r.table, id);
    if answer.Some? {
      ResumeResult(r.table, ByScheduler, id, answer.value);
    }
  }

  lemma CarriedOn(executor: Executor, round: nat, before: Row, r: Round, x: ExecId, id: ExecId)
    requires Keyed(r.table) && Ready(r.table) && x in r.table && x != id && Carried(executor, round, before, r.table[x], x, r)
    ensures var u := Next(ByScheduler, executor, round, r, id);
      x in u.table && Carried(executor, round, before, u.table[x], x, u)
  {
    ResumedRows(ByScheduler, executor, round, r.table, id);
  }

  // ── The scheduler ───────────────────────────────────────────────

  class Scheduler {
    const storage: ExecutionStore

    constructor (storage: ExecutionStore)
      ensures this.storage == storage
    {
      this.storage := storage;
    }

    method ResumeOne(executor: Executor, round: nat, exec: Execution) returns (kind: Kind)
      requires Keyed(storage.table) && exec.id in storage.table && storage.table[exec.id].exec == exec && exec.status.Paused?
      modifies storage
      ensures storage.table == Resumed(ByScheduler, executor, round, old(storage.table), exec.id)
      ensures kind == KindOf(Answer(executor, round, old(storage.table), exec.id))
      ensures
        var t, checkpoint := old(storage.table), old(storage.table[exec.id].checkpoint);
        if checkpoint.None? || checkpoint.value == [] then storage.table == t && kind == Errored
        else
          match executor(round, exec, checkpoint.value)
          case Some(Finished(output, context)) =>
            && storage.table == t[exec.id := Row(exec.(status := Completed, output := output, context := Some(context)), None)]
            && kind == Done
          case Some(Suspended(next, _)) => storage.table == t[exec.id := Row(exec, Some(next))] && kind == Again
          case _ => storage.table == t && kind == Errored
    {
      ghost var t := storage.table;
      var blob := storage.LoadCheckpoint(exec.id);
      if blob.None? || blob.value == [] {
        return Errored;
      }
      var answer := executor(round, exec, blob.value);
      match answer
      case None =>
        kind := Errored;
      case Some(outcome) =>
        ResumeResult(t, ByScheduler, exec.id, outcome);
        match outcome
        case Finished(output, context) =>
          storage.SaveExecution(exec.(status := Completed, output := output, context := Some(context)));
          kind := Done;
        case Suspended(checkpoint, _) =>
          storage.SaveCheckpoint(exec.id, checkpoint);
          kind := Again;
        case Broken(_) =>
          kind := Errored;
    }

    /** One round over everything that is paused, in some order. The counts are those of the round, and the
        rows still paused are exactly those that it paused again or that failed in it. */
    method RunOnce(executor: Executor, round: nat) returns (summary: Summary, ghost ids: seq<ExecId>, ghost r: Round)
      requires Keyed(storage.table) && Ready(storage.table)
      modifies storage
      ensures Covers(ids, old(storage.table))
      ensures r == ResumedAll(ByScheduler, executor, round, old(storage.table), ids) && storage.table == r.table
      ensures summary == Counts(ids, r)
      ensures Keyed(r.table) && Ready(r.table) && Progress(old(storage.table), r.table)
      ensures summary.processed == |PausedIn(old(storage.table))|
      ensures summary.completed == CompletedBetween(old(storage.table), r.table)
      ensures summary.processed == summary.completed + summary.stillPaused + summary.failed
      ensures PausedIn(r.table) == r.again + r.failed
      ensures !Suspends(executor, round) ==> r.again == {}
      ensures forall id :: id in PausedIn(old(storage.table)) ==>
        id in storage.table && Carried(executor, round, old(storage.table)[id], storage.table[id], id, r)
    {
      hide Carried, ResumedAll, Resumed, Answer, Lists, Keyed, Ready, Progress, CompletedBetween, Suspends;
      ghost var t := storage.table;
      var paused := storage.ListPaused();
      ListedIds(paused, t);
      ids := Ids(paused);
      summary := NoneYet.(processed := |paused|);
      RoundFirst(ByScheduler, executor, round, t, ids);
      for i := 0 to |paused|
        invariant RoundSoFar(ByScheduler, executor, round, t, ids, i, storage.table, summary) && summary.processed == |paused|
      {
        RoundNext(ByScheduler, executor, round, t, paused, i, storage.table, summary);
        var kind := ResumeOne(executor, round, paused[i]);
        summary := Count(summary, kind);
      }
      assert ids[..|ids|] == ids;
      r := ResumedAll(ByScheduler, executor, round, t, ids);
      RoundProgress(executor, round, t, ids);
      RoundCarries(executor, round, t, ids);
      ListedOnce(ids, PausedIn(t));
      if !Suspends(executor, round) {
        NeverAgain(executor, round, t, ids);
      }
    }

    /** Round after round, over what the one before left paused, until a round pauses nothing again or the
        rounds are used up. `passes` are the rounds, and `total` is the sum of their counts. Over all of
        them no row is completed twice. If the run ends early, what is still paused is what failed in the
        last round; if nothing is suspended one round is enough. */
    method RunLoop(executor: Executor, maxRounds: nat) returns (total: Summary, ghost passes: seq<Pass>)
      requires Keyed(storage.table) && Ready(storage.table)
      modifies storage
      ensures IsRun(executor, old(storage.table), passes) && storage.table == Reached(old(storage.table), passes)
      ensures total == Totals(passes)
      ensures |passes| <= maxRounds && forall i :: 0 <= i < |passes| - 1 ==> passes[i].round.again != {}
      ensures |passes| < maxRounds ==> passes != [] && passes[|passes| - 1].round.again == {}
      ensures Keyed(storage.table) && Ready(storage.table) && Progress(old(storage.table), storage.table)
      ensures total.completed == CompletedBetween(old(storage.table), storage.table)
      ensures total.processed == total.completed + total.stillPaused + total.failed
      ensures passes != [] ==>
        PausedIn(storage.table) == passes[|passes| - 1].round.again + passes[|passes| - 1].round.failed
      ensures |passes| < maxRounds ==> PausedIn(storage.table) == passes[|passes| - 1].round.failed
      ensures maxRounds > 0 && !Suspends(executor, 0) ==> |passes| == 1
    {
      hide IsRun, Reached, Totals, Keyed, Ready, Progress, CompletedBetween, PausedIn, Suspends, ResumedAll, Covers;
      ghost var t := storage.table;
      total, passes := NoneYet, [];
      NoPasses(executor, t);
      for i := 0 to maxRounds
        invariant |passes| == i && IsRun(executor, t, passes) && storage.table == Reached(t, passes)
        invariant total == Totals(passes) && Keyed(storage.table) && Ready(storage.table)
        invariant forall k :: 0 <= k < i ==> passes[k].round.again != {}
      {
        ghost var before, ids, r := storage.table, [], Round(t, {}, {}, {});
        var summary;
        summary, ids, r := RunOnce(executor, i);
        PassNext(executor, t, passes, Pass(before, ids, r));
        passes := passes + [Pass(before, ids, r)];
        total := Plus(total, summary);
        if summary.completed == 0 && summary.stillPaused == 0 {
          break;
        }
        if summary.stillPaused == 0 {
          break;
        }
      }
      RunProgress(executor, t, passes);
    }
  }

  // ── Runs of rounds ──────────────────────────────────────────────

  /** The executions of a round: those that are paused, each once. */
  ghost predicate Covers(ids: seq<ExecId>, t: Table) {
    Distinct(ids) && forall id :: id in ids <==> id in PausedIn(t)
  }

  function Counts(ids: seq<ExecId>, r: Round): Summary {
    Summary(|ids|, |r.completed|, |r.again|, |r.failed|)
  }

  function Plus(a: Summary, b: Summary): Summary {
    Summary(a.processed + b.processed, a.completed + b.completed, a.stillPaused + b.stillPaused, a.failed + b.failed)
  }

  datatype Pass = Pass(before: Table, ids: seq<ExecId>, round: Round)

  /** Each round resumes what is paused in the table that the one before left. */
  ghost predicate IsRun(executor: Executor, t: Table, passes: seq<Pass>) {
    forall i :: 0 <= i < |passes| ==> IsPass(executor, t, passes, i)
  }

  ghost predicate IsPass(executor: Executor, t: Table, passes: seq<Pass>, i: nat)
    requires i < |passes|
  {
    var p := passes[i];
    && p.before == Reached(t, passes[..i]) && Covers(p.ids, p.before)
    && p.round == ResumedAll(ByScheduler, executor, i, p.before, p.ids)
  }

  function Reached(t: Table, passes: seq<Pass>): Table {
    if passes == [] then t else passes[|passes| - 1].round.table
  }

  function Totals(passes: seq<Pass>): Summary {
    if passes == [] then NoneYet
    else Plus(Totals(passes[..|passes| - 1]), Counts(passes[|passes| - 1].ids, passes[|passes| - 1].round))
  }

  lemma NoPasses(executor: Executor, t: Table)
    ensures IsRun(executor, t, []) && Reached(t, []) == t && Totals([]) == NoneYet
  {
  }

  lemma PassNext(executor: Executor, t: Table, passes: seq<Pass>, p: Pass)
    requires IsRun(executor, t, passes) && p.before == Reached(t, passes) && Covers(p.ids, p.before)
    requires p.round == ResumedAll(ByScheduler, executor, |passes|, p.before, p.ids)
    ensures IsRun(executor, t, passes + [p]) && Reached(t, passes + [p]) == p.round.table
    ensures Totals(passes + [p]) == Plus(Totals(passes), Counts(p.ids, p.round))
  {
    hide ResumedAll, Covers;
    var all := passes + [p];
    assert all[..|passes|] == passes;
    forall i | 0 <= i < |all|
      ensures IsPass(executor, t, all, i)
    {
      assert all[..i] == passes[..i];
      if i < |passes| {
        assert IsPass(executor, t, passes, i);
      } else {
        assert passes[..i] == passes;
      }
    }
  }

  /** What a run of rounds amounts to: it completes each row that it counts as completed once, its
      counts add up, and what is still paused was paused again or failed in the last round. */
  lemma {:induction false} RunProgress(executor: Executor, t: Table, passes: seq<Pass>)
    requires Keyed(t) && Ready(t) && IsRun(executor, t, passes)
    ensures var u, total := Reached(t, passes), Totals(passes);
      && Keyed(u) && Ready(u) && Progress(t, u) && total.completed == CompletedBetween(t, u)
      && total.processed == total.completed + total.stillPaused + total.failed
      && (passes != [] ==> PausedIn(u) == passes[|passes| - 1].round.again + passes[|passes| - 1].round.failed)
    ensures passes != [] && !Suspends(executor, 0) ==> passes[0].round.again == {}
    decreases |passes|
  {
    hide Keyed, Ready, Progress, CompletedBetween, PausedIn, ResumedAll, Suspends, IsRun, Totals, Covers;
    if passes == [] {
      NoPasses(executor, t);
      NoProgress(t);
    } else {
      var front, p := passes[..|passes| - 1], passes[|passes| - 1];
      FrontIsRun(executor, t, passes);
      RunProgress(executor, t, front);
      LastPass(executor, t, passes);
      CoversPaused(p.ids, p.before);
      RoundProgress(executor, |passes| - 1, p.before, p.ids);
      ProgressAdds(t, p.before, p.round.table);
      if |passes| == 1 && !Suspends(executor, 0) {
        NeverAgain(executor, 0, p.before, p.ids);
      }
    }
  }

  lemma LastPass(executor: Executor, t: Table, passes: seq<Pass>)
    requires passes != [] && IsRun(executor, t, passes)
    ensures var front, p := passes[..|passes| - 1], passes[|passes| - 1];
      && p.before == Reached(t, front) && Covers(p.ids, p.before)
      && p.round == ResumedAll(ByScheduler, executor, |passes| - 1, p.before, p.ids)
      && Totals(passes) == Plus(Totals(front), Counts(p.ids, p.round))
  {
    hide ResumedAll, Covers;
    assert IsPass(executor, t, passes, |passes| - 1);
  }

  lemma CoversPaused(ids: seq<ExecId>, t: Table)
    requires Covers(ids, t)
    ensures Distinct(ids) && forall id :: id in ids <==> id in PausedIn(t)
  {
  }

  lemma NoProgress(t: Table)
    ensures Progress(t, t) && CompletedBetween(t, t) == 0
  {
    assert PausedIn(t) - PausedIn(t) == {};
  }

  lemma FrontIsRun(executor: Executor, t: Table, passes: seq<Pass>)
    requires passes != [] && IsRun(executor, t, passes)
    ensures IsRun(executor, t, passes[..|passes| - 1])
  {
    hide ResumedAll, Covers;
    var front := passes[..|passes| - 1];
    forall i | 0 <= i < |front|
      ensures IsPass(executor, t, front, i)
    {
      assert front[..i] == passes[..i];
      assert IsPass(executor, t, passes, i);
    }
  }

  /** The state of a round after its first `i` executions. */
  ghost predicate RoundSoFar(mode: Mode, executor: Executor, round: nat, t: Table, ids: seq<ExecId>, i: nat, now: Table, s: Summary) {
    && i <= |ids|
    && var r := ResumedAll(mode, executor, round, t, ids[..i]);
    && now == r.table && Keyed(now) && Ready(now)
    && s.completed == |r.completed| && s.stillPaused == |r.again| && s.failed == |r.failed|
  }

  lemma RoundFirst(mode: Mode, executor: Executor, round: nat, t: Table, ids: seq<ExecId>)
    requires Keyed(t) && Ready(t)
    ensures forall s: Summary :: s.completed == s.stillPaused == s.failed == 0 ==> RoundSoFar(mode, executor, round, t, ids, 0, t, s)
  {
  }

  lemma RoundNext(mode: Mode, executor: Executor, round: nat, t: Table, paused: seq<Execution>, i: nat, now: Table, s: Summary)
    requires Keyed(t) && Ready(t) && Lists(paused, t) && i < |paused| && RoundSoFar(mode, executor, round, t, Ids(paused), i, now, s)
    ensures var id := paused[i].id;
      && Keyed(now) && id in now && now[id].exec == paused[i] && paused[i].status.Paused?
      && RoundSoFar(mode, executor, round, t, Ids(paused), i + 1, Resumed(mode, executor, round, now, id),
                    Count(s, KindOf(Answer(executor, round, now, id))))
  {
    hide Answer, Resumed, Lists;
    var ids, id := Ids(paused), paused[i].id;
    ListedAt(paused, t, i);
    RoundSplits(mode, executor, round, t, ids[..i]);
    RoundSplits(mode, executor, round, t, ids[..i + 1]);
    ResumedNext(mode, executor, round, t, ids, i);
    hide ResumedAll, Keyed, Ready;
    var r, u := ResumedAll(mode, executor, round, t, ids[..i]), ResumedAll(mode, executor, round, t, ids[..i + 1]);
    SortedCounts(ids[..i], r, id, KindOf(Answer(executor, round, r.table, id)));
  }

  lemma ResumedNext(mode: Mode, executor: Executor, round: nat, t: Table, ids: seq<ExecId>, i: nat)
    requires i < |ids|
    ensures ResumedAll(mode, executor, round, t, ids[..i + 1])
         == Next(mode, executor, round, ResumedAll(mode, executor, round, t, ids[..i]), ids[i])
  {
    assert ids[..i + 1][..i] == ids[..i];
  }

  lemma SortedCounts(ids: seq<ExecId>, r: Round, id: ExecId, kind: Kind)
    requires Kinds(ids, r) && id !in ids
    ensures var u := Sorted(r, id, kind);
      && |u.completed| == |r.completed| + (if kind == Done then 1 else 0)
      && |u.again| == |r.again| + (if kind == Again then 1 else 0)
      && |u.failed| == |r.failed| + (if kind == Errored then 1 else 0)
  {
  }

  lemma ListedAt(paused: seq<Execution>, t: Table, i: nat)
    requires Lists(paused, t) && i < |paused|
    ensures var ids := Ids(paused);
      && Distinct(ids[..i]) && Distinct(ids[..i + 1]) && ids[i] !in ids[..i]
      && (forall id :: id in ids[..i + 1] ==> id in t && t[id].exec.status.Paused?)
      && (forall id :: id in ids[..i] ==> id in t && t[id].exec.status.Paused?)
      && paused[i].id in t && t[paused[i].id].exec == paused[i] && paused[i].status.Paused?
  {
    ListedIds(paused, t);
    var ids := Ids(paused);
    assert forall id :: id in ids[..i + 1] ==> id in ids;
    assert ids[i] in ids;
  }

  lemma {:induction false} ListedOnce(ids: seq<ExecId>, s: set<ExecId>)
    requires Distinct(ids) && forall id :: id in ids <==> id in s
    ensures |ids| == |s|
  {
    if ids == [] {
      assert s == {};
    } else {
      var last := ids[|ids| - 1];
      assert ids == ids[..|ids| - 1] + [last];
      ListedOnce(ids[..|ids| - 1], s - {last});
    }
  }

  lemma {:induction false} NeverAgain(executor: Executor, round: nat, t: Table, ids: seq<ExecId>)
    requires !Suspends(executor, round)
    ensures ResumedAll(ByScheduler, executor, round, t, ids).again == {}
  {
    if ids != [] {
      NeverAgain(executor, round, t, ids[..|ids| - 1]);
      var now := ResumedAll(ByScheduler, executor, round, t, ids[..|ids| - 1]).table;
      assert !KindOf(Answer(executor, round, now, ids[|ids| - 1])).Again?;
    }
  }

  // ── The server ──────────────────────────────────────────────────

  /** Runs a new execution. Without an audit nothing is recorded. */
  method RunExecution(store: ExecutionStore, exec: Execution, audit: bool, outcome: Outcome)
    requires Keyed(store.table) && Ready(store.table) && exec.id !in store.table
    modifies store
    ensures store.table == After(old(store.table), ExecuteOp(exec, audit, outcome))
    ensures Keyed(store.table) && Ready(store.table)
    ensures
      var t := old(store.table);
      store.table ==
        if !audit then t
        else
          match outcome
          case Finished(output, context) =>
            t[exec.id := Row(exec.(status := Completed, output := output, context := Some(context)), None)]
          case Suspended(next, context) => t[exec.id := Row(exec.(status := Paused, context := Some(context)), Some(next))]
          case Broken(error) =>
            t[exec.id := Row(exec.(status := Failed, error := Some(error), context := Some(exec.input)), None)]
  {
    ghost var t := store.table;
    OpKeeps(t, ExecuteOp(exec, audit, outcome));
    ExecuteResult(t, exec, outcome);
    if audit {
      store.SaveExecution(exec.(status := Running));
    }
    match outcome
    case Finished(output, context) =>
      if audit {
        store.SaveExecution(exec.(status := Completed, output := output, context := Some(context)));
      }
    case Suspended(checkpoint, context) =>
      if audit {
        store.SaveExecution(exec.(status := Paused, context := Some(context)));
        store.SaveCheckpoint(exec.id, checkpoint);
      }
    case Broken(error) =>
      if audit {
        store.SaveExecution(exec.(status := Failed, error := Some(error), context := Some(exec.input)));
      }
  }

  /** None if the execution cannot be resumed; otherwise what became of it. */
  method ResumeExecution(store: ExecutionStore, executor: Executor, round: nat, id: ExecId, audit: bool)
    returns (outcome: Option<Outcome>)
    requires Keyed(store.table) && Ready(store.table)
    modifies store
    ensures outcome == Answer(executor, round, old(store.table), id)
    ensures store.table == Resumed(ByServer(audit), executor, round, old(store.table), id)
    ensures Keyed(store.table) && Ready(store.table)
    ensures
      var t := old(store.table);
      if id !in t || !t[id].exec.status.Paused? then outcome == None && store.table == t
      else
        && t[id].checkpoint.Some? && outcome == executor(round, t[id].exec, t[id].checkpoint.value)
        && store.table ==
           if !audit then t
           else
             match outcome
             case None => t
             case Some(Finished(output, context)) =>
               t[id := Row(t[id].exec.(status := Completed, output := output, context := Some(context)), None)]
             case Some(Suspended(next, context)) =>
               t[id := Row(t[id].exec.(status := Paused, context := Some(context)), Some(next))]
             case Some(Broken(error)) => t[id := Row(t[id].exec.(status := Failed, error := Some(error)), None)]
  {
    ghost var t := store.table;
    ResumedRows(ByServer(audit), executor, round, t, id);
    if id !in store.table || !store.table[id].exec.status.Paused? {
      return None;
    }
    var exec := store.table[id].exec;
    var blob := store.LoadCheckpoint(id);
    outcome := executor(round, exec, blob.value);
    if outcome.None? {
      return;
    }
    ResumeResult(t, ByServer(audit), id, outcome.value);
    if audit {
      match outcome.value
      case Finished(output, context) =>
        store.SaveExecution(exec.(status := Completed, output := output, context := Some(context)));
      case Suspended(checkpoint, context) =>
        store.SaveExecution(exec.(status := Paused, context := Some(context)));
        store.SaveCheckpoint(id, checkpoint);
      case Broken(error) =>
        store.SaveExecution(exec.(status := Failed, error := Some(error)));
    }
  }

  /** The server's own round. */
  method RunScheduler(store: ExecutionStore, executor: Executor, audit: bool) returns (summary: Summary, ghost ids: seq<ExecId>)
    requires Keyed(store.table) && Ready(store.table)
    modifies store
    ensures Distinct(ids) && forall id :: id in ids <==> id in PausedIn(old(store.table))
    ensures var r := ResumedAll(ByServer(audit), executor, 0, old(store.table), ids);
      && store.table == r.table && Split(ByServer(audit), old(store.table), ids, r)
      && summary == Summary(|ids|, |r.completed|, |r.again|, |r.failed|)
  {
    hide Split, Resumed, Answer, ResumedAll, Lists, Ready, Keyed;
    ghost var t := store.table;
    var paused := store.ListPaused();
    ListedIds(paused, t);
    ids := Ids(paused);
    summary := NoneYet;
    RoundFirst(ByServer(audit), executor, 0, t, ids);
    for i := 0 to |paused|
      invariant RoundSoFar(ByServer(audit), executor, 0, t, ids, i, store.table, summary)
      invariant summary.processed == i
    {
      RoundNext(ByServer(audit), executor, 0, t, paused, i, store.table, summary);
      summary := summary.(processed := summary.processed + 1);
      var outcome := ResumeExecution(store, executor, 0, paused[i].id, audit);
      summary := Count(summary, KindOf(outcome));
    }
    assert ids[..|ids|] == ids;
    RoundSplits(ByServer(audit), executor, 0, t, ids);
  }
}
