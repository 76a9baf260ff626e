/** What the registry holds, told by who joined and left in the run. */
module DaemonRegistry {
  import opened Wrappers
  import opened Daemon
  import opened DaemonOutcomes

  /** Action `j` is a disconnect of this worker coming by the group. */
  ghost predicate Leaves(actions: seq<Action>, j: nat, g: nat, w: WorkerId)
    requires j < |actions|
  {
    && actions[j].LeaveGroup? && actions[j].group == g
    && exists s :: Run(Initial, actions[..j], s) && actions[j].call in s.disconnects && s.disconnects[actions[j].call].worker == w
  }

  /** The worker joined the group, and no disconnect of it has come by the group since. */
  ghost predicate Member(actions: seq<Action>, g: nat, w: WorkerId) {
    exists k :: 0 <= k < |actions| && actions[k] == JoinGroup(g, w) && Stays(actions, k + 1, g, w)
  }

  ghost predicate Stays(actions: seq<Action>, k: nat, g: nat, w: WorkerId) {
    forall j :: k <= j < |actions| ==> !Leaves(actions, j, g, w)
  }

  /** The tool was defined, and no disconnect has dropped the definition since. */
  ghost predicate Known(actions: seq<Action>, tool: string) {
    exists k :: 0 <= k < |actions| && actions[k] == AddDefinition(tool) && Kept(actions, k + 1, tool)
  }

  ghost predicate Kept(actions: seq<Action>, k: nat, tool: string) {
    forall j :: k <= j < |actions| ==> !(actions[j].DropDefinition? && actions[j].tool == tool)
  }

  lemma LeavesThen(actions: seq<Action>, s: State, a: Action, j: nat, g: nat, w: WorkerId)
    requires Run(Initial, actions, s) && Enabled(s, a) && j <= |actions|
    ensures j < |actions| ==> (Leaves(actions + [a], j, g, w) <==> Leaves(actions, j, g, w))
    ensures j == |actions| ==> (Leaves(actions + [a], j, g, w) <==> a.LeaveGroup? && a.group == g && s.disconnects[a.call].worker == w)
  {
    assert (actions + [a])[..j] == actions[..j];
    if j == |actions| {
      assert actions[..j] == actions;
      forall u | Run(Initial, actions, u)
        ensures u == s
      {
        RunIsDetermined(Initial, actions, u, s);
      }
    }
  }

  lemma MemberThen(actions: seq<Action>, s: State, a: Action, g: nat, w: WorkerId)
    requires Run(Initial, actions, s) && Enabled(s, a)
    ensures Member(actions + [a], g, w) <==>
      a == JoinGroup(g, w) || (Member(actions, g, w) && !(a.LeaveGroup? && a.group == g && s.disconnects[a.call].worker == w))
  {
    hide Leaves, Run;
    var all, n := actions + [a], |actions|;
    forall j: nat | j <= n {
      LeavesThen(actions, s, a, j, g, w);
    }
    assert forall k: nat :: k <= n ==> (Stays(all, k, g, w) <==> Stays(actions, k, g, w) && !Leaves(all, n, g, w));
    if a == JoinGroup(g, w) {
      assert all[n] == JoinGroup(g, w) && Stays(all, n + 1, g, w);
    }
    if Member(actions, g, w) && !Leaves(all, n, g, w) {
      var k :| 0 <= k < |actions| && actions[k] == JoinGroup(g, w) && Stays(actions, k + 1, g, w);
      assert all[k] == JoinGroup(g, w) && Stays(all, k + 1, g, w);
    }
  }

  lemma KnownThen(actions: seq<Action>, a: Action, tool: string)
    ensures Known(actions + [a], tool) <==>
      a == AddDefinition(tool) || (Known(actions, tool) && !(a.DropDefinition? && a.tool == tool))
  {
    var all, n := actions + [a], |actions|;
    forall k: nat | k <= n
      ensures Kept(all, k, tool) <==> Kept(actions, k, tool) && !(a.DropDefinition? && a.tool == tool)
    {
      assert all[n] == a && forall j :: k <= j < n ==> all[j] == actions[j];
    }
    if a == AddDefinition(tool) {
      assert all[n] == AddDefinition(tool) && Kept(all, n + 1, tool);
    }
    if Known(actions, tool) && !(a.DropDefinition? && a.tool == tool) {
      var k :| 0 <= k < |actions| && actions[k] == AddDefinition(tool) && Kept(actions, k + 1, tool);
      assert all[k] == AddDefinition(tool) && Kept(all, k + 1, tool);
    }
  }

  lemma {:induction false} RemovedIsGone(ws: seq<WorkerId>, w: WorkerId)
    ensures forall x :: x in RemoveWorker(ws, w) <==> x in ws && x != w
  {
    if ws != [] {
      RemovedIsGone(ws[1..], w);
    }
  }

  /** How one step changes who is in a group, and which tools are defined. */
  lemma RegistryStep(s: State, a: Action, g: nat, w: WorkerId)
    requires Enabled(s, a)
    ensures g in Step(s, a).groups && w in Step(s, a).groups[g].workers <==>
      || a == JoinGroup(g, w)
      || (g in s.groups && w in s.groups[g].workers && !(a.LeaveGroup? && a.group == g && s.disconnects[a.call].worker == w))
  {
    if a.LeaveGroup? {
      RemovedIsGone(s.groups[a.group].workers, s.disconnects[a.call].worker);
    }
  }

  lemma DefinitionStep(s: State, a: Action, tool: string)
    requires Enabled(s, a)
    ensures tool in Step(s, a).toolDefs <==>
      a == AddDefinition(tool) || (tool in s.toolDefs && !(a.DropDefinition? && a.tool == tool))
  {
  }

  /** A group has exactly the workers that joined it and have not left since; exactly the tools are defined
      that were defined and not dropped since. */
  lemma {:induction false} Registered(actions: seq<Action>, r: State)
    requires Run(Initial, actions, r)
    ensures forall g: nat, w: WorkerId :: g in r.groups && w in r.groups[g].workers <==> Member(actions, g, w)
    ensures forall tool :: tool in r.toolDefs <==> Known(actions, tool)
    decreases |actions|
  {
    if actions != [] {
      var front, last := actions[..|actions| - 1], actions[|actions| - 1];
      assert actions == front + [last];
      var s := RunOn(Initial, front, last, r);
      Registered(front, s);
      hide Run, Member, Known;
      forall g: nat, w: WorkerId
        ensures g in r.groups && w in r.groups[g].workers <==> Member(actions, g, w)
      {
        MemberThen(front, s, last, g, w);
        RegistryStep(s, last, g, w);
      }
      forall tool
        ensures tool in r.toolDefs <==> Known(actions, tool)
      {
        KnownThen(front, last, tool);
        DefinitionStep(s, last, tool);
      }
    }
  }

  /** The disconnect once found the tool's group without workers. */
  ghost predicate FoundDeserted(actions: seq<Action>, d: nat, tool: string) {
    exists k: nat, s :: Did(actions, k, s, NoteEmpty(d, tool)) && Deserted(s, tool)
  }

  ghost predicate Deserted(s: State, tool: string) {
    tool in s.toolGroups && s.toolGroups[tool] in s.groups && s.groups[s.toolGroups[tool]].workers == []
  }

  lemma {:induction false} EmptiedWasDeserted(actions: seq<Action>, r: State, d: nat, tool: string)
    requires Run(Initial, actions, r) && (d, tool) in r.emptied
    ensures FoundDeserted(actions, d, tool)
    decreases |actions|
  {
    var front, last := actions[..|actions| - 1], actions[|actions| - 1];
    assert actions == front + [last];
    var s := RunOn(Initial, front, last, r);
    if last == NoteEmpty(d, tool) {
      DidNow(front, s, last);
      assert Did(actions, |front|, s, last);
    } else {
      OnlyNoteAdds(s, last, d, tool);
      EmptiedWasDeserted(front, s, d, tool);
      DidLater(front, last);
    }
  }

  lemma OnlyNoteAdds(s: State, a: Action, d: nat, tool: string)
    requires Enabled(s, a) && a != NoteEmpty(d, tool) && (d, tool) in Step(s, a).emptied
    ensures (d, tool) in s.emptied
  {
  }

  /** A disconnect drops a tool's group or definition only after it once found the group without workers. */
  lemma DropsOnlyDeserted(actions: seq<Action>, r: State, d: nat, tool: string)
    requires Run(Initial, actions, r) && (Enabled(r, DropGroup(d, tool)) || Enabled(r, DropDefinition(d, tool)))
    ensures FoundDeserted(actions, d, tool)
  {
    EmptiedWasDeserted(actions, r, d, tool);
  }
}
