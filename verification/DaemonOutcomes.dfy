/** What an invocation returns, told by what happened in the run. */
module DaemonOutcomes {
  import opened Wrappers
  import opened Daemon

  // ── What happened in a run ──────────────────────────────────────

  /** The run's action number `k` was `a`, in state `s`. */
  ghost predicate Did(actions: seq<Action>, k: nat, s: State, a: Action) {
    k < |actions| && actions[k] == a && Run(Initial, actions[..k], s) && Enabled(s, a)
  }

  ghost predicate Begun(actions: seq<Action>, t: TaskId, tool: string) {
    exists k: nat, s :: Did(actions, k, s, Begin(t, tool))
  }

  /** The call looked its tool's group up and found this one. */
  ghost predicate Found(actions: seq<Action>, t: TaskId, tool: string, g: nat) {
    exists k: nat, s :: Did(actions, k, s, LookupGroup(t)) && tool in s.toolGroups && s.toolGroups[tool] == g
  }

  /** This is the group that the call chooses from. */
  ghost predicate Chose(actions: seq<Action>, s: State, t: TaskId, tool: string, g: nat) {
    Found(actions, t, tool, g) && t in s.calls && s.calls[t] == Grouped(g) && g in s.groups
  }

  /** The call was dealt this worker: the one at the group's counter, modulo the group's size. */
  ghost predicate Dealt(actions: seq<Action>, t: TaskId, tool: string, w: WorkerId) {
    exists k: nat, s, g :: Did(actions, k, s, ChooseWorker(t)) && Chose(actions, s, t, tool, g) && Turn(s.groups[g], w)
  }

  ghost predicate Turn(g: Group, w: WorkerId) {
    g.workers != [] && g.workers[g.next % |g.workers|] == w
  }

  /** The tool was in no table, or its group was, and at that step it had no workers. */
  ghost predicate Unknown(actions: seq<Action>, t: TaskId, tool: string) {
    || (exists k: nat, s :: Did(actions, k, s, LookupDefinition(t)) && tool !in s.toolDefs)
    || (exists k: nat, s :: Did(actions, k, s, LookupGroup(t)) && tool !in s.toolGroups)
  }

  ghost predicate FoundEmpty(actions: seq<Action>, t: TaskId, tool: string) {
    exists k: nat, s, g :: Did(actions, k, s, ChooseWorker(t)) && Chose(actions, s, t, tool, g) && s.groups[g].workers == []
  }

  /** A message for the task was taken up while the task was pending: a worker's answer, or a
      disconnect's failure. */
  ghost predicate Sent(actions: seq<Action>, t: TaskId, m: Response) {
    || (m.task == t && exists k: nat, s :: Did(actions, k, s, TakeSender(m)) && t in s.pending)
    || (m == Response(t, false, "", "worker disconnected")
        && exists k: nat, s, d :: Did(actions, k, s, FailTask(d, t)) && t in s.pending)
  }

  ghost predicate Done(actions: seq<Action>, a: Action) {
    exists k: nat, s :: Did(actions, k, s, a)
  }

  ghost predicate Caused(actions: seq<Action>, t: TaskId, tool: string, o: Outcome) {
    match o
    case NotFound => Unknown(actions, t, tool)
    case NoWorker => FoundEmpty(actions, t, tool)
    case ConnectionLost => Done(actions, TrySend(t, false))
    case Replied(m) => Sent(actions, t, m)
    case SenderLost => false
    case DeadlineExceeded => Done(actions, FireTimeout(t))
  }

  /** How the phase of a call came about. */
  ghost predicate Explained(actions: seq<Action>, t: TaskId, tool: string, p: Phase) {
    match p
    case Started(x) => x == tool
    case Defined(x) => x == tool
    case Grouped(g) => Found(actions, t, tool, g)
    case SendFailed(w) => Dealt(actions, t, tool, w) && Done(actions, TrySend(t, false))
    case TimedOut(w) => Dealt(actions, t, tool, w) && Done(actions, FireTimeout(t))
    case Leaving(w, o) => Dealt(actions, t, tool, w) && Caused(actions, t, tool, o)
    case Returned(o) => Caused(actions, t, tool, o)
    case _ => Dealt(actions, t, tool, p.worker)
  }

  ghost predicate CallExplained(actions: seq<Action>, s: State, t: TaskId)
    requires t in s.calls
  {
    exists tool :: Begun(actions, t, tool) && Explained(actions, t, tool, s.calls[t])
  }

  ghost predicate History(actions: seq<Action>, s: State) {
    && (forall t :: t in s.calls ==> CallExplained(actions, s, t))
    && (forall t :: t in s.replying ==> Sent(actions, t, s.replying[t]))
    && (forall t :: t in s.mailbox ==> Sent(actions, t, s.mailbox[t]))
  }

  // ── What happened stays so ──────────────────────────────────────

  lemma DidLater(actions: seq<Action>, b: Action)
    ensures forall k: nat, s, a :: Did(actions, k, s, a) ==> Did(actions + [b], k, s, a)
  {
    forall k: nat, s, a | Did(actions, k, s, a)
      ensures Did(actions + [b], k, s, a)
    {
      assert (actions + [b])[..k] == actions[..k];
    }
  }

  lemma DidNow(actions: seq<Action>, s: State, a: Action)
    requires Run(Initial, actions, s) && Enabled(s, a)
    ensures Did(actions + [a], |actions|, s, a)
  {
    assert (actions + [a])[..|actions|] == actions;
  }

  lemma FactsLater(actions: seq<Action>, b: Action, t: TaskId, tool: string)
    ensures Begun(actions, t, tool) ==> Begun(actions + [b], t, tool)
    ensures forall g :: Found(actions, t, tool, g) ==> Found(actions + [b], t, tool, g)
    ensures forall w :: Dealt(actions, t, tool, w) ==> Dealt(actions + [b], t, tool, w)
    ensures Unknown(actions, t, tool) ==> Unknown(actions + [b], t, tool)
    ensures FoundEmpty(actions, t, tool) ==> FoundEmpty(actions + [b], t, tool)
    ensures forall m :: Sent(actions, t, m) ==> Sent(actions + [b], t, m)
    ensures forall a :: Done(actions, a) ==> Done(actions + [b], a)
  {
    hide Did;
    DidLater(actions, b);
    forall s, g | Chose(actions, s, t, tool, g)
      ensures Chose(actions + [b], s, t, tool, g)
    {
    }
  }

  lemma ExplainedLater(actions: seq<Action>, b: Action, t: TaskId, tool: string, p: Phase)
    requires Explained(actions, t, tool, p)
    ensures Explained(actions + [b], t, tool, p)
  {
    hide Begun, Found, Dealt, Unknown, FoundEmpty, Sent, Done;
    FactsLater(actions, b, t, tool);
  }

  // ── Every step keeps the account ────────────────────────────────

  /** The step that moved a call explains its new phase. */
  lemma MoveExplained(actions: seq<Action>, s: State, a: Action, tool: string)
    requires Run(Initial, actions, s) && History(actions, s) && Enabled(s, a) && MovesCall(a) && !a.NoticeSenderLost?
    requires if a.Begin? then tool == a.tool else Explained(actions, a.task, tool, s.calls[a.task])
    ensures Explained(actions + [a], a.task, tool, Step(s, a).calls[a.task])
  {
    hide Begun, Found, Dealt, Unknown, FoundEmpty, Sent, Done, Run, History;
    var t := a.task;
    FactsLater(actions, a, t, tool);
    if a.Receive? {
      Mailed(actions, s, a);
    }
    LookupExplained(actions, s, a, tool);
  }

  lemma Mailed(actions: seq<Action>, s: State, a: Action)
    requires History(actions, s) && Enabled(s, a) && a.Receive?
    ensures Sent(actions, a.task, s.mailbox[a.task])
  {
  }

  lemma LookupExplained(actions: seq<Action>, s: State, a: Action, tool: string)
    requires Run(Initial, actions, s) && Enabled(s, a) && MovesCall(a)
    requires a.Begin? || Explained(actions, a.task, tool, s.calls[a.task])
    ensures a.LookupDefinition? && tool !in s.toolDefs ==> Unknown(actions + [a], a.task, tool)
    ensures a.LookupGroup? && tool !in s.toolGroups ==> Unknown(actions + [a], a.task, tool)
    ensures a.LookupGroup? && tool in s.toolGroups ==> Found(actions + [a], a.task, tool, s.toolGroups[tool])
    ensures a.ChooseWorker? ==>
      var g := s.groups[s.calls[a.task].group];
      && (g.workers == [] ==> FoundEmpty(actions + [a], a.task, tool))
      && (forall w :: Turn(g, w) ==> Dealt(actions + [a], a.task, tool, w))
    ensures Done(actions + [a], a)
  {
    hide Run;
    DidNow(actions, s, a);
    FactsLater(actions, a, a.task, tool);
    var k := |actions|;
    assert Did(actions + [a], k, s, a);
    if a.ChooseWorker? {
      assert Chose(actions + [a], s, a.task, tool, s.calls[a.task].group);
    }
  }

  lemma StepExplained(actions: seq<Action>, s: State, a: Action)
    requires Run(Initial, actions, s) && History(actions, s) && Inv(s) && Enabled(s, a)
    ensures History(actions + [a], Step(s, a))
  {
    hide Run, Inv;
    var u := Step(s, a);
    CallsExplained(actions, s, a);
    SendersExplained(actions, s, a);
  }

  lemma CallsExplained(actions: seq<Action>, s: State, a: Action)
    requires Run(Initial, actions, s) && History(actions, s) && Inv(s) && Enabled(s, a)
    ensures forall t :: t in Step(s, a).calls ==> CallExplained(actions + [a], Step(s, a), t)
  {
    hide Run, Inv, Explained, Begun;
    var u := Step(s, a);
    if a.NoticeSenderLost? {
      NoSenderLost(s, a.task);
    }
    forall t | t in u.calls
      ensures CallExplained(actions + [a], u, t)
    {
      if MovesCall(a) && a.task == t {
        var tool := Opened(actions, s, a);
        MoveExplained(actions, s, a, tool);
      } else {
        OthersStay(s, a, t);
        assert CallExplained(actions, s, t);
        var tool :| Begun(actions, t, tool) && Explained(actions, t, tool, s.calls[t]);
        FactsLater(actions, a, t, tool);
        ExplainedLater(actions, a, t, tool, s.calls[t]);
      }
    }
  }

  /** The tool of the call that the step moves. */
  lemma Opened(actions: seq<Action>, s: State, a: Action) returns (tool: string)
    requires Run(Initial, actions, s) && History(actions, s) && Enabled(s, a) && MovesCall(a)
    ensures Begun(actions + [a], a.task, tool)
    ensures if a.Begin? then tool == a.tool else Explained(actions, a.task, tool, s.calls[a.task])
  {
    hide Run, Explained;
    if a.Begin? {
      tool := a.tool;
      DidNow(actions, s, a);
    } else {
      assert CallExplained(actions, s, a.task);
      tool :| Begun(actions, a.task, tool) && Explained(actions, a.task, tool, s.calls[a.task]);
      FactsLater(actions, a, a.task, tool);
    }
  }

  lemma OthersStay(s: State, a: Action, t: TaskId)
    requires Enabled(s, a) && t in Step(s, a).calls && (MovesCall(a) ==> a.task != t)
    ensures t in s.calls && Step(s, a).calls[t] == s.calls[t]
  {
    if !MovesCall(a) {
      CallsStay(s, a);
    }
  }

  lemma SendersExplained(actions: seq<Action>, s: State, a: Action)
    requires Run(Initial, actions, s) && History(actions, s) && Enabled(s, a)
    ensures forall t :: t in Step(s, a).replying ==> Sent(actions + [a], t, Step(s, a).replying[t])
    ensures forall t :: t in Step(s, a).mailbox ==> Sent(actions + [a], t, Step(s, a).mailbox[t])
  {
    hide Run, Sent, CallExplained;
    var u := Step(s, a);
    forall t, m | Sent(actions, t, m)
      ensures Sent(actions + [a], t, m)
    {
      FactsLater(actions, a, t, "");
    }
    NewSenders(s, a);
    forall t | t in u.replying
      ensures Sent(actions + [a], t, u.replying[t])
    {
      if t !in s.replying || s.replying[t] != u.replying[t] {
        SentNow(actions, s, a, t, u.replying[t]);
      }
    }
  }

  lemma NewSenders(s: State, a: Action)
    requires Enabled(s, a)
    ensures var u := Step(s, a);
      && (forall t :: t in u.mailbox ==> (t in s.mailbox && s.mailbox[t] == u.mailbox[t]) || (t in s.replying && s.replying[t] == u.mailbox[t]))
      && (forall t :: t in u.replying && (t !in s.replying || s.replying[t] != u.replying[t]) ==>
            && t in s.pending
            && if a.TakeSender? then a.response == u.replying[t] && a.response.task == t
               else a.FailTask? && a.task == t && u.replying[t] == Response(t, false, "", "worker disconnected"))
  {
  }

  lemma SentNow(actions: seq<Action>, s: State, a: Action, t: TaskId, m: Response)
    requires Run(Initial, actions, s) && Enabled(s, a) && t in s.pending
    requires if a.TakeSender? then a.response == m && m.task == t
             else a.FailTask? && a.task == t && m == Response(t, false, "", "worker disconnected")
    ensures Sent(actions + [a], t, m)
  {
    hide Run;
    DidNow(actions, s, a);
    assert Did(actions + [a], |actions|, s, a);
  }

  lemma {:induction false} RunOn(s: State, actions: seq<Action>, a: Action, r: State) returns (u: State)
    requires Run(s, actions + [a], r)
    ensures Run(s, actions, u) && Enabled(u, a) && r == Step(u, a)
    decreases |actions|
  {
    var all := actions + [a];
    if actions == [] {
      u := s;
    } else {
      assert all[1..] == actions[1..] + [a] && all[0] == actions[0];
      u := RunOn(Step(s, actions[0]), actions[1..], a, r);
    }
  }

  lemma {:induction false} RunExplained(actions: seq<Action>, r: State)
    requires Run(Initial, actions, r)
    ensures History(actions, r)
    decreases |actions|
  {
    if actions != [] {
      var front, last := actions[..|actions| - 1], actions[|actions| - 1];
      assert actions == front + [last];
      var s := RunOn(Initial, front, last, r);
      RunExplained(front, s);
      RunKeeps(Initial, front, s);
      StepExplained(front, s, last);
    }
  }

  // ── What a call returns ─────────────────────────────────────────

  /** Whatever a call returns has its cause in the run: a reply is the message that was taken up for it while it
      was pending, from a worker as it came, or the failure that a disconnect sends; it found no tool, or no
      worker, because there was none at that step; the send failed, or the timeout fired. */
  lemma OutcomeIsCaused(actions: seq<Action>, r: State, t: TaskId)
    requires Run(Initial, actions, r) && t in r.calls && r.calls[t].Returned?
    ensures exists tool :: Begun(actions, t, tool) && Caused(actions, t, tool, r.calls[t].outcome)
  {
    hide Begun, Run;
    RunExplained(actions, r);
    ReturnExplained(actions, r, t);
  }

  lemma ReturnExplained(actions: seq<Action>, r: State, t: TaskId)
    requires t in r.calls && History(actions, r)
    ensures r.calls[t].Returned? ==> exists tool :: Begun(actions, t, tool) && Caused(actions, t, tool, r.calls[t].outcome)
    ensures var p := r.calls[t]; !p.Started? && !p.Defined? && !p.Grouped? && !p.Returned? ==>
      exists tool :: Begun(actions, t, tool) && Dealt(actions, t, tool, p.worker)
  {
    hide Begun, Caused, Found, Dealt, Done, Sent;
    assert CallExplained(actions, r, t);
  }

  /** A worker that is chosen, or left in the end, is the one whose turn it was in the tool's group. */
  lemma WorkerIsDealt(actions: seq<Action>, r: State, t: TaskId)
    requires Run(Initial, actions, r) && t in r.calls
    requires var p := r.calls[t]; !p.Started? && !p.Defined? && !p.Grouped? && !p.Returned?
    ensures exists tool :: Begun(actions, t, tool) && Dealt(actions, t, tool, r.calls[t].worker)
  {
    hide Begun, Run;
    RunExplained(actions, r);
    ReturnExplained(actions, r, t);
  }

  /** The message for this task has been taken up, and it is this one. */
  ghost predicate Answered(s: State, t: TaskId, m: Response) {
    && t in s.calls && !BeforePending(s.calls[t]) && t !in s.pending
    && (t in s.replying ==> s.replying[t] == m)
    && (t in s.mailbox ==> s.mailbox[t] == m)
    && (s.calls[t].Leaving? || s.calls[t].Returned? ==> s.calls[t].outcome.Replied? ==> s.calls[t].outcome.response == m)
  }

  lemma StaysAnswered(s: State, a: Action, t: TaskId, m: Response)
    requires Answered(s, t, m) && Inv(s) && Enabled(s, a)
    ensures Answered(Step(s, a), t, m)
  {
    if MovesCall(a) && a.task == t {
      MoveAnswered(s, a, m);
    } else {
      OthersAnswered(s, a, t, m);
    }
  }

  lemma MoveAnswered(s: State, a: Action, m: Response)
    requires Enabled(s, a) && MovesCall(a) && Answered(s, a.task, m)
    ensures Answered(Step(s, a), a.task, m)
  {
  }

  lemma OthersAnswered(s: State, a: Action, t: TaskId, m: Response)
    requires Enabled(s, a) && (MovesCall(a) ==> a.task != t) && Answered(s, t, m) && Inv(s)
    ensures Answered(Step(s, a), t, m)
  {
    CallStays(s, a, t);
    NewSenders(s, a);
    PendsOwn(s, a, t);
  }

  lemma CallStays(s: State, a: Action, t: TaskId)
    requires Enabled(s, a) && t in s.calls && (MovesCall(a) ==> a.task != t)
    ensures t in Step(s, a).calls && Step(s, a).calls[t] == s.calls[t]
  {
    if !MovesCall(a) {
      CallsStay(s, a);
    }
  }

  lemma PendsOwn(s: State, a: Action, t: TaskId)
    requires Enabled(s, a) && t !in s.pending && (a.Pend? ==> a.task != t)
    ensures t !in Step(s, a).pending
  {
  }

  lemma {:induction false} RunStaysAnswered(s: State, actions: seq<Action>, r: State, t: TaskId, m: Response)
    requires Run(s, actions, r) && Answered(s, t, m) && Inv(s) && TakenOnce(s)
    ensures Answered(r, t, m)
    decreases |actions|
  {
    if actions != [] {
      StaysAnswered(s, actions[0], t, m);
      StepKeeps(s, actions[0]);
      StepKeepsTakenOnce(s, actions[0]);
      RunStaysAnswered(Step(s, actions[0]), actions[1..], r, t, m);
    }
  }

  lemma NowAnswered(s: State, a: Action, t: TaskId, m: Response)
    requires Inv(s) && Enabled(s, a) && t in s.pending
    requires (a == TakeSender(m) && m.task == t) || (a.FailTask? && a.task == t && m == Response(t, false, "", "worker disconnected"))
    ensures Answered(Step(s, a), t, m)
  {
  }

  /** The other way round: the message taken up while the task was pending is the one that the call
      receives, if it receives any. */
  lemma TakenIsReceived(before: seq<Action>, s: State, a: Action, after: seq<Action>, r: State, t: TaskId, m: Response)
    requires Run(Initial, before, s) && Enabled(s, a) && Run(Step(s, a), after, r) && t in s.pending
    requires (a == TakeSender(m) && m.task == t) || (a.FailTask? && a.task == t && m == Response(t, false, "", "worker disconnected"))
    ensures t in r.calls && t !in r.pending
    ensures r.calls[t].Returned? && r.calls[t].outcome.Replied? ==> r.calls[t].outcome.response == m
  {
    RunKeeps(Initial, before, s);
    NowAnswered(s, a, t, m);
    StepKeeps(s, a);
    StepKeepsTakenOnce(s, a);
    hide Run, Inv, TakenOnce;
    RunStaysAnswered(Step(s, a), after, r, t, m);
  }

  // ── Exactly when ────────────────────────────────────────────────

  /** From here on the call can return nothing but `o`. */
  ghost predicate Fated(s: State, t: TaskId, o: Outcome) {
    && t in s.calls
    && var p := s.calls[t];
       || (p.SendFailed? && o == ConnectionLost) || (p.TimedOut? && o == DeadlineExceeded)
       || ((p.Leaving? || p.Returned?) && p.outcome == o)
  }

  lemma StaysFated(s: State, a: Action, t: TaskId, o: Outcome)
    requires Fated(s, t, o) && Enabled(s, a)
    ensures Fated(Step(s, a), t, o)
  {
    if !MovesCall(a) {
      CallsStay(s, a);
    }
  }

  lemma {:induction false} RunStaysFated(s: State, actions: seq<Action>, r: State, t: TaskId, o: Outcome)
    requires Run(s, actions, r) && Fated(s, t, o)
    ensures Fated(r, t, o)
    decreases |actions|
  {
    if actions != [] {
      StaysFated(s, actions[0], t, o);
      RunStaysFated(Step(s, actions[0]), actions[1..], r, t, o);
    }
  }

  lemma {:induction false} RunSplits(s: State, actions: seq<Action>, k: nat, r: State) returns (u: State)
    requires Run(s, actions, r) && k <= |actions|
    ensures Run(s, actions[..k], u) && Run(u, actions[k..], r)
    decreases k
  {
    u := s;
    if k > 0 {
      u := RunSplits(Step(s, actions[0]), actions[1..], k - 1, r);
      assert actions[..k] == [actions[0]] + actions[1..][..k - 1] && actions[k..] == actions[1..][k - 1..];
      assert actions[..k][1..] == actions[1..][..k - 1];
    }
  }

  lemma {:induction false} RunIsDetermined(s: State, actions: seq<Action>, q: State, r: State)
    requires Run(s, actions, q) && Run(s, actions, r)
    ensures q == r
    decreases |actions|
  {
    if actions != [] {
      RunIsDetermined(Step(s, actions[0]), actions[1..], q, r);
    }
  }

  /** What came after an action of the run. */
  lemma DidThen(actions: seq<Action>, r: State, k: nat, s: State, a: Action)
    requires Run(Initial, actions, r) && Did(actions, k, s, a)
    ensures Run(Step(s, a), actions[k + 1..], r)
  {
    var u := RunSplits(Initial, actions, k, r);
    RunIsDetermined(Initial, actions[..k], u, s);
    assert actions[k..][1..] == actions[k + 1..];
  }

  lemma {:induction false} CallsRemain(s: State, actions: seq<Action>, r: State, t: TaskId)
    requires Run(s, actions, r) && t in s.calls
    ensures t in r.calls
    decreases |actions|
  {
    if actions != [] {
      if !MovesCall(actions[0]) {
        CallsStay(s, actions[0]);
      }
      CallsRemain(Step(s, actions[0]), actions[1..], r, t);
    }
  }

  lemma OneTool(actions: seq<Action>, r: State, t: TaskId, x: string, y: string)
    requires Run(Initial, actions, r) && Begun(actions, t, x) && Begun(actions, t, y)
    ensures x == y
  {
    var i: nat, p :| Did(actions, i, p, Begin(t, x));
    var j: nat, q :| Did(actions, j, q, Begin(t, y));
    if i < j {
      BegunOnce(actions, r, i, p, Begin(t, x), j, q, t);
    } else if j < i {
      BegunOnce(actions, r, j, q, Begin(t, y), i, p, t);
    }
  }

  lemma BegunOnce(actions: seq<Action>, r: State, i: nat, p: State, a: Action, j: nat, q: State, t: TaskId)
    requires Run(Initial, actions, r) && Did(actions, i, p, a) && a.Begin? && a.task == t && i < j <= |actions| && Run(Initial, actions[..j], q)
    ensures t in q.calls
  {
    hide Enabled;
    assert actions[..j][..i] == actions[..i];
    assert Did(actions[..j], i, p, a);
    DidThen(actions[..j], q, i, p, a);
    CallsRemain(Step(p, a), actions[..j][i + 1..], q, t);
  }

  lemma CauseIsFate(actions: seq<Action>, r: State, t: TaskId, k: nat, s: State, a: Action, o: Outcome)
    requires Run(Initial, actions, r) && Did(actions, k, s, a) && Fated(Step(s, a), t, o)
    ensures Fated(r, t, o)
  {
    DidThen(actions, r, k, s, a);
    RunStaysFated(Step(s, a), actions[k + 1..], r, t, o);
  }

  lemma ToolThen(actions: seq<Action>, r: State, t: TaskId, tool: string, k: nat, s: State)
    requires Run(Initial, actions, r) && Begun(actions, t, tool) && k <= |actions| && Run(Initial, actions[..k], s) && t in s.calls
    ensures Begun(actions[..k], t, tool) && Explained(actions[..k], t, tool, s.calls[t])
  {
    RunExplained(actions[..k], s);
    hide Explained, Run;
    assert CallExplained(actions[..k], s, t);
    var x :| Begun(actions[..k], t, x) && Explained(actions[..k], t, x, s.calls[t]);
    BegunEarlier(actions, k, t, x);
    OneTool(actions, r, t, tool, x);
  }

  lemma BegunEarlier(actions: seq<Action>, k: nat, t: TaskId, x: string)
    requires k <= |actions| && Begun(actions[..k], t, x)
    ensures Begun(actions, t, x)
  {
    hide Run, Enabled;
    var i: nat, p :| Did(actions[..k], i, p, Begin(t, x));
    assert actions[..k][..i] == actions[..i];
    assert Did(actions, i, p, Begin(t, x));
  }

  /** Exactly when a call finds nothing: it comes back with `NotFound` if and only if its tool was in no table, or
      had no group, when it looked; with `NoWorker` if and only if the group it had found had no workers. */
  lemma MissIff(actions: seq<Action>, r: State, t: TaskId, tool: string)
    requires Run(Initial, actions, r) && Begun(actions, t, tool)
    ensures t in r.calls && r.calls[t] == Returned(NotFound) <==> Unknown(actions, t, tool)
    ensures t in r.calls && r.calls[t] == Returned(NoWorker) <==> FoundEmpty(actions, t, tool)
  {
    if t in r.calls && r.calls[t].Returned? {
      OutcomeIsCaused(actions, r, t);
      var x :| Begun(actions, t, x) && Caused(actions, t, x, r.calls[t].outcome);
      OneTool(actions, r, t, tool, x);
    }
    if Unknown(actions, t, tool) {
      UnknownReturns(actions, r, t, tool);
    }
    if FoundEmpty(actions, t, tool) {
      EmptyReturns(actions, r, t, tool);
    }
  }

  lemma UnknownReturns(actions: seq<Action>, r: State, t: TaskId, tool: string)
    requires Run(Initial, actions, r) && Begun(actions, t, tool) && Unknown(actions, t, tool)
    ensures t in r.calls && r.calls[t] == Returned(NotFound)
  {
    hide Begun;
    if k: nat, s :| Did(actions, k, s, LookupDefinition(t)) && tool !in s.toolDefs {
      ToolThen(actions, r, t, tool, k, s);
      StaysReturnedTo(actions, r, k, s, LookupDefinition(t), NotFound);
    } else {
      var k: nat, s :| Did(actions, k, s, LookupGroup(t)) && tool !in s.toolGroups;
      ToolThen(actions, r, t, tool, k, s);
      StaysReturnedTo(actions, r, k, s, LookupGroup(t), NotFound);
    }
  }

  lemma StaysReturnedTo(actions: seq<Action>, r: State, k: nat, s: State, a: Action, o: Outcome)
    requires Run(Initial, actions, r) && Did(actions, k, s, a) && MovesCall(a) && Step(s, a).calls[a.task] == Returned(o)
    ensures a.task in r.calls && r.calls[a.task] == Returned(o)
  {
    DidThen(actions, r, k, s, a);
    OneOutcome(Step(s, a), actions[k + 1..], r, a.task);
  }

  lemma EmptyReturns(actions: seq<Action>, r: State, t: TaskId, tool: string)
    requires Run(Initial, actions, r) && Begun(actions, t, tool) && FoundEmpty(actions, t, tool)
    ensures t in r.calls && r.calls[t] == Returned(NoWorker)
  {
    hide Begun, Found;
    var k: nat, s, g :| Did(actions, k, s, ChooseWorker(t)) && Chose(actions, s, t, tool, g) && s.groups[g].workers == [];
    StaysReturnedTo(actions, r, k, s, ChooseWorker(t), NoWorker);
  }

  /** A call that returns says that the connection was lost if and only if its send failed, and that its deadline
      passed if and only if its timeout fired. */
  lemma GiveUpIff(actions: seq<Action>, r: State, t: TaskId)
    requires Run(Initial, actions, r) && t in r.calls && r.calls[t].Returned?
    ensures r.calls[t].outcome == ConnectionLost <==> Done(actions, TrySend(t, false))
    ensures r.calls[t].outcome == DeadlineExceeded <==> Done(actions, FireTimeout(t))
  {
    hide Run, Did;
    OutcomeIsCaused(actions, r, t);
    if k: nat, s :| Did(actions, k, s, TrySend(t, false)) {
      SendFates(actions, k, s, t);
      CauseIsFate(actions, r, t, k, s, TrySend(t, false), ConnectionLost);
    }
    if k: nat, s :| Did(actions, k, s, FireTimeout(t)) {
      TimeoutFates(actions, k, s, t);
      CauseIsFate(actions, r, t, k, s, FireTimeout(t), DeadlineExceeded);
    }
  }

  lemma SendFates(actions: seq<Action>, k: nat, s: State, t: TaskId)
    requires Did(actions, k, s, TrySend(t, false))
    ensures Enabled(s, TrySend(t, false)) && Fated(Step(s, TrySend(t, false)), t, ConnectionLost)
  {
  }

  lemma TimeoutFates(actions: seq<Action>, k: nat, s: State, t: TaskId)
    requires Did(actions, k, s, FireTimeout(t))
    ensures Enabled(s, FireTimeout(t)) && Fated(Step(s, FireTimeout(t)), t, DeadlineExceeded)
  {
  }
}
