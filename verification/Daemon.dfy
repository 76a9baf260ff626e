/** The daemon's dispatch protocol: invocations, responses, timeouts and disconnects share the
    `pending` and `in_flight` tables. Each step below is one access to one shared table, so a
    run is any interleaving of all the calls that are under way.

    An invocation is identified by the task id it will use; task ids are fresh. Whether a
    `try_send` succeeds and when a timeout fires is left open. So is the order of the accesses of
    one registration, and of those of one disconnect to the registry: a tool is found without workers
    in one step, its group and its definition are dropped in later ones, and a worker may have
    joined in between. */
module Daemon {
  import opened Wrappers

  type TaskId = nat
  type WorkerId = nat

  datatype Response = Response(task: TaskId, success: bool, output: string, error: string)

  datatype Outcome =
    | NotFound | NoWorker | ConnectionLost | Replied(response: Response) | SenderLost | DeadlineExceeded

  /** How far an invocation has got. */
  datatype Phase =
    | Started(tool: string)
    | Defined(tool: string)
    | Grouped(group: nat)
    | Chosen(worker: WorkerId)
    | Pended(worker: WorkerId)
    | Recorded(worker: WorkerId)
    | Waiting(worker: WorkerId)
    | SendFailed(worker: WorkerId)
    | TimedOut(worker: WorkerId)
    | Leaving(worker: WorkerId, outcome: Outcome)
    | Returned(outcome: Outcome)

  datatype Group = Group(workers: seq<WorkerId>, next: nat)

  /** A running `disconnect_worker`: the tasks it took, those it has still to look at, and the
      one it is answering. */
  datatype Disconnect = Disconnect(worker: WorkerId, taken: Option<set<TaskId>>, left: set<TaskId>, answering: Option<TaskId>)

  /** `inFlight` relates workers to task ids; a worker without tasks has no entry to speak of.
      `replying` holds the senders that were removed from `pending` and not used yet;
      `mailbox` what has been sent through them; `emptied` the tools that a disconnect once found
      without workers. */
  datatype State = State(
    toolDefs: set<string>,
    toolGroups: map<string, nat>,
    groups: map<nat, Group>,
    calls: map<TaskId, Phase>,
    pending: set<TaskId>,
    inFlight: set<(WorkerId, TaskId)>,
    replying: map<TaskId, Response>,
    mailbox: map<TaskId, Response>,
    disconnects: map<nat, Disconnect>,
    emptied: set<(nat, string)>)

  const Initial := State({}, map[], map[], map[], {}, {}, map[], map[], map[], {})

  datatype Action =
    | OpenGroup(tool: string, newGroup: nat)
    | JoinGroup(group: nat, worker: WorkerId)
    | AddDefinition(tool: string)
    | Begin(task: TaskId, tool: string)
    | LookupDefinition(task: TaskId)
    | LookupGroup(task: TaskId)
    | ChooseWorker(task: TaskId)
    | Pend(task: TaskId)
    | Record(task: TaskId)
    | TrySend(task: TaskId, accepted: bool)
    | GiveUpSend(task: TaskId)
    | Receive(task: TaskId)
    | NoticeSenderLost(task: TaskId)
    | FireTimeout(task: TaskId)
    | GiveUpWait(task: TaskId)
    | Unrecord(task: TaskId)
    | TakeSender(response: Response)
    | Reply(task: TaskId)
    | StartDisconnect(call: nat, worker: WorkerId)
    | LeaveGroup(call: nat, group: nat)
    | NoteEmpty(call: nat, tool: string)
    | DropGroup(call: nat, tool: string)
    | DropDefinition(call: nat, tool: string)
    | TakeInFlight(call: nat)
    | FailTask(call: nat, task: TaskId)
    | EndDisconnect(call: nat)

  function InFlightOf(s: State, w: WorkerId): set<TaskId> {
    set p | p in s.inFlight && p.0 == w :: p.1
  }

  function Without<K, V>(m: map<K, V>, k: K): map<K, V> {
    map x | x in m && x != k :: m[x]
  }

  function RemoveWorker(ws: seq<WorkerId>, w: WorkerId): seq<WorkerId> {
    if ws == [] then [] else (if ws[0] == w then [] else [ws[0]]) + RemoveWorker(ws[1..], w)
  }

  /** Appends a worker; a worker that registers twice for a tool stands twice in its list. */
  function AddWorker(g: Group, w: WorkerId): Group {
    g.(workers := g.workers + [w])
  }

  /** The next worker in turn; the turn advances only if there is one. */
  function NextWorker(g: Group): (Group, Option<WorkerId>) {
    if g.workers == [] then (g, None)
    else (g.(next := g.next + 1), Some(g.workers[g.next % |g.workers|]))
  }

  function WorkerLost(t: TaskId): Response {
    Response(t, false, "", "worker disconnected")
  }

  /** The receiver of a waiting call finds its sender gone without a message. */
  predicate SenderGone(s: State, t: TaskId) {
    t !in s.pending && t !in s.replying && t !in s.mailbox
  }

  predicate Enabled(s: State, a: Action) {
    match a
    case OpenGroup(tool, newGroup) => tool in s.toolGroups || newGroup !in s.groups
    case JoinGroup(g, _) => g in s.groups
    case AddDefinition(_) => true
    case Begin(t, _) => t !in s.calls
    case LookupDefinition(t) => t in s.calls && s.calls[t].Started?
    case LookupGroup(t) => t in s.calls && s.calls[t].Defined?
    case ChooseWorker(t) => t in s.calls && s.calls[t].Grouped? && s.calls[t].group in s.groups
    case Pend(t) => t in s.calls && s.calls[t].Chosen?
    case Record(t) => t in s.calls && s.calls[t].Pended?
    case TrySend(t, _) => t in s.calls && s.calls[t].Recorded?
    case GiveUpSend(t) => t in s.calls && s.calls[t].SendFailed?
    case Receive(t) => t in s.calls && s.calls[t].Waiting? && t in s.mailbox
    case NoticeSenderLost(t) => t in s.calls && s.calls[t].Waiting? && SenderGone(s, t)
    case FireTimeout(t) => t in s.calls && s.calls[t].Waiting?
    case GiveUpWait(t) => t in s.calls && s.calls[t].TimedOut?
    case Unrecord(t) => t in s.calls && s.calls[t].Leaving?
    case TakeSender(r) => true
    case Reply(t) => t in s.replying
    case StartDisconnect(d, _) => d !in s.disconnects
    case LeaveGroup(d, g) => d in s.disconnects && g in s.groups
    case NoteEmpty(d, tool) =>
      d in s.disconnects && tool in s.toolGroups && s.toolGroups[tool] in s.groups
      && s.groups[s.toolGroups[tool]].workers == []
    case DropGroup(d, tool) => d in s.disconnects && (d, tool) in s.emptied
    case DropDefinition(d, tool) => d in s.disconnects && (d, tool) in s.emptied
    case TakeInFlight(d) => d in s.disconnects && s.disconnects[d].taken.None?
    case FailTask(d, t) =>
      d in s.disconnects && t in s.disconnects[d].left
      && (s.disconnects[d].answering.Some? ==> s.disconnects[d].answering.value !in s.replying)
    case EndDisconnect(d) =>
      d in s.disconnects && s.disconnects[d].taken.Some? && s.disconnects[d].left == {}
      && (s.disconnects[d].answering.Some? ==> s.disconnects[d].answering.value !in s.replying)
  }

  function Move(s: State, t: TaskId, p: Phase): State {
    s.(calls := s.calls[t := p])
  }

  function Step(s: State, a: Action): State
    requires Enabled(s, a)
  {
    match a
    case OpenGroup(tool, newGroup) =>
      if tool in s.toolGroups then s
      else s.(toolGroups := s.toolGroups[tool := newGroup], groups := s.groups[newGroup := Group([], 0)])
    case JoinGroup(g, w) => s.(groups := s.groups[g := AddWorker(s.groups[g], w)])
    case AddDefinition(tool) => s.(toolDefs := s.toolDefs + {tool})
    case Begin(t, tool) => Move(s, t, Started(tool))
    case LookupDefinition(t) =>
      Move(s, t, if s.calls[t].tool in s.toolDefs then Defined(s.calls[t].tool) else Returned(NotFound))
    case LookupGroup(t) =>
      Move(s, t, if s.calls[t].tool in s.toolGroups then Grouped(s.toolGroups[s.calls[t].tool]) else Returned(NotFound))
    case ChooseWorker(t) =>
      var (g, w) := NextWorker(s.groups[s.calls[t].group]);
      Move(s, t, if w.Some? then Chosen(w.value) else Returned(NoWorker)).(groups := s.groups[s.calls[t].group := g])
    case Pend(t) => Move(s, t, Pended(s.calls[t].worker)).(pending := s.pending + {t})
    case Record(t) =>
      var w := s.calls[t].worker;
      Move(s, t, Recorded(w)).(inFlight := s.inFlight + {(w, t)})
    case TrySend(t, accepted) =>
      Move(s, t, if accepted then Waiting(s.calls[t].worker) else SendFailed(s.calls[t].worker))
    case GiveUpSend(t) => Move(s, t, Leaving(s.calls[t].worker, ConnectionLost)).(pending := s.pending - {t})
    case Receive(t) => Move(s, t, Leaving(s.calls[t].worker, Replied(s.mailbox[t])))
    case NoticeSenderLost(t) => Move(s, t, Leaving(s.calls[t].worker, SenderLost))
    case FireTimeout(t) => Move(s, t, TimedOut(s.calls[t].worker))
    case GiveUpWait(t) => Move(s, t, Leaving(s.calls[t].worker, DeadlineExceeded)).(pending := s.pending - {t})
    case Unrecord(t) =>
      var w := s.calls[t].worker;
      Move(s, t, Returned(s.calls[t].outcome)).(inFlight := s.inFlight - {(w, t)})
    case TakeSender(r) =>
      if r.task in s.pending then s.(pending := s.pending - {r.task}, replying := s.replying[r.task := r]) else s
    case Reply(t) => s.(replying := Without(s.replying, t), mailbox := s.mailbox[t := s.replying[t]])
    case StartDisconnect(d, w) => s.(disconnects := s.disconnects[d := Disconnect(w, None, {}, None)])
    case LeaveGroup(d, g) =>
      s.(groups := s.groups[g := s.groups[g].(workers := RemoveWorker(s.groups[g].workers, s.disconnects[d].worker))])
    case NoteEmpty(d, tool) => s.(emptied := s.emptied + {(d, tool)})
    case DropGroup(d, tool) => s.(toolGroups := Without(s.toolGroups, tool))
    case DropDefinition(d, tool) => s.(toolDefs := s.toolDefs - {tool})
    case TakeInFlight(d) =>
      var c := s.disconnects[d];
      var ids := InFlightOf(s, c.worker);
      s.(inFlight := (set p | p in s.inFlight && p.0 != c.worker), disconnects := s.disconnects[d := c.(taken := Some(ids), left := ids)])
    case FailTask(d, t) =>
      var c := s.disconnects[d].(left := s.disconnects[d].left - {t});
      if t in s.pending then
        s.(pending := s.pending - {t}, replying := s.replying[t := WorkerLost(t)],
           disconnects := s.disconnects[d := c.(answering := Some(t))])
      else s.(disconnects := s.disconnects[d := c])
    case EndDisconnect(d) => s.(disconnects := Without(s.disconnects, d))
  }

  // ── The invariant ───────────────────────────────────────────────

  /** The phases in which a call may have an entry in `pending`. */
  predicate MayBePending(p: Phase) {
    p.Pended? || p.Recorded? || p.Waiting? || p.SendFailed? || p.TimedOut?
  }

  /** The phases in which a call may be recorded in flight. */
  predicate MayBeInFlight(p: Phase) {
    p.Recorded? || p.Waiting? || p.SendFailed? || p.TimedOut? || p.Leaving?
  }

  /** The sender of a task is in one place at most: pending, in a replier's hands, or used. */
  ghost predicate SendersApart(s: State) {
    && s.pending !! s.replying.Keys
    && s.pending !! s.mailbox.Keys
    && s.replying.Keys !! s.mailbox.Keys
  }

  ghost predicate CallsOwnTables(s: State) {
    && (forall t :: t in s.pending ==> t in s.calls && MayBePending(s.calls[t]))
    && (forall w, t :: (w, t) in s.inFlight ==>
          t in s.calls && MayBeInFlight(s.calls[t]) && s.calls[t].worker == w)
    && (forall t :: t in s.replying || t in s.mailbox ==> t in s.calls && !BeforePending(s.calls[t]))
  }

  predicate BeforePending(p: Phase) {
    p.Started? || p.Defined? || p.Grouped? || p.Chosen?
  }

  /** Messages and outcomes carry the id of their own task. */
  ghost predicate OwnReplies(s: State) {
    && (forall t :: t in s.replying ==> s.replying[t].task == t)
    && (forall t :: t in s.mailbox ==> s.mailbox[t].task == t)
    && (forall t :: t in s.calls ==> OwnOutcome(t, s.calls[t]))
  }

  predicate OwnOutcome(t: TaskId, p: Phase) {
    (p.Leaving? || p.Returned?) ==> (p.outcome.Replied? ==> p.outcome.response.task == t) && p.outcome != SenderLost
  }

  /** A call that still waits for its message has not lost its sender. */
  ghost predicate SenderKept(s: State) {
    forall t :: t in s.calls && (s.calls[t].Pended? || s.calls[t].Recorded? || s.calls[t].Waiting?) ==> !SenderGone(s, t)
  }

  ghost predicate OnList(s: State, t: TaskId, w: WorkerId) {
    exists d :: d in s.disconnects && s.disconnects[d].worker == w && t in s.disconnects[d].left
  }

  /** A pending task that was recorded is in its worker's table or on the list of a disconnect. */
  ghost predicate Covered(s: State) {
    forall t :: t in s.pending && t in s.calls && MayBeInFlight(s.calls[t]) ==>
      (s.calls[t].worker, t) in s.inFlight || OnList(s, t, s.calls[t].worker)
  }

  ghost predicate ListsExact(s: State) {
    forall d :: d in s.disconnects ==>
      var c := s.disconnects[d];
      && (c.taken.None? ==> c.left == {})
      && (c.taken.Some? ==> c.left <= c.taken.value)
      && (c.taken.Some? ==>
            forall t :: t in c.taken.value ==> t in s.calls && !BeforePending(s.calls[t]) && (t in c.left || t !in s.pending))
  }

  ghost predicate Inv(s: State) {
    SendersApart(s) && CallsOwnTables(s) && OwnReplies(s) && SenderKept(s) && Covered(s) && ListsExact(s)
  }

  // ── Every step keeps it ─────────────────────────────────────────

  /** Steps of the registry, and a call's steps before it has a task, touch no task table. */
  predicate SameTables(s: State, r: State) {
    s.pending == r.pending && s.inFlight == r.inFlight && s.replying == r.replying && s.mailbox == r.mailbox
  }

  predicate SameLists(s: State, r: State) {
    s.disconnects == r.disconnects
  }

  lemma RegistryKeeps(s: State, r: State)
    requires Inv(s) && SameTables(s, r) && SameLists(s, r) && r.calls == s.calls
    ensures Inv(r)
  {
    forall t, w | OnList(s, t, w)
      ensures OnList(r, t, w)
    {
    }
  }

  /** A call moves on while the tables stay as they are. */
  lemma PhaseKeeps(s: State, t: TaskId, p: Phase, r: State)
    requires Inv(s) && SameTables(s, r) && SameLists(s, r) && r.calls == s.calls[t := p]
    requires t in s.calls || p.Started?
    requires BeforePending(p) ==> t !in s.calls || BeforePending(s.calls[t])
    requires OwnOutcome(t, p)
    requires t in s.pending ==> MayBePending(p)
    requires forall w :: (w, t) in s.inFlight ==> MayBeInFlight(p) && p.worker == w
    requires p.Pended? || p.Recorded? || p.Waiting? ==> !SenderGone(s, t)
    requires t in s.pending && MayBeInFlight(p) ==> (p.worker, t) in s.inFlight || OnList(s, t, p.worker)
    ensures Inv(r)
  {
    forall u, w | OnList(s, u, w)
      ensures OnList(r, u, w)
    {
    }
    assert CallsOwnTables(r);
    assert ListsExact(r);
  }

  /** A call that has moved past a phase is in no table it did not enter. */
  lemma NotYetPending(s: State, t: TaskId)
    requires Inv(s) && (t in s.calls ==> BeforePending(s.calls[t]))
    ensures t !in s.pending && t !in s.replying && t !in s.mailbox
    ensures forall w :: (w, t) !in s.inFlight
  {
  }

  lemma ReturnedIsNowhere(s: State, t: TaskId)
    requires Inv(s) && t in s.calls && s.calls[t].Returned?
    ensures t !in s.pending && forall w :: (w, t) !in s.inFlight
  {
  }

  /** Lists that are kept or grow keep their tasks. */
  lemma OnListKept(s: State, r: State, t: TaskId, w: WorkerId)
    requires forall d :: d in s.disconnects && t in s.disconnects[d].left ==>
      d in r.disconnects && r.disconnects[d].worker == s.disconnects[d].worker && t in r.disconnects[d].left
    ensures OnList(s, t, w) ==> OnList(r, t, w)
  {
  }

  lemma PendKeeps(s: State, t: TaskId)
    requires Inv(s) && Enabled(s, Pend(t))
    ensures Inv(Step(s, Pend(t)))
  {
    var r := Step(s, Pend(t));
    NotYetPending(s, t);
    forall u, w {
      OnListKept(s, r, u, w);
    }
    assert CallsOwnTables(r) && ListsExact(r);
  }

  /** A call enters or leaves its worker's table. */
  ghost predicate FlightStep(s: State, t: TaskId, r: State) {
    && t in s.calls && (s.calls[t].Pended? || s.calls[t].Leaving?)
    && var w := s.calls[t].worker;
       if s.calls[t].Pended? then
         r == s.(calls := s.calls[t := Recorded(w)], inFlight := s.inFlight + {(w, t)})
       else
         r == s.(calls := s.calls[t := Returned(s.calls[t].outcome)], inFlight := s.inFlight - {(w, t)})
  }

  lemma RecordTables(s: State, t: TaskId, r: State)
    requires Inv(s) && FlightStep(s, t, r) && s.calls[t].Pended?
    ensures CallsOwnTables(r)
  {
    forall w, u | (w, u) in r.inFlight && u != t
      ensures (w, u) in s.inFlight
    {
    }
  }

  lemma UnrecordTables(s: State, t: TaskId, r: State)
    requires Inv(s) && FlightStep(s, t, r) && s.calls[t].Leaving?
    ensures CallsOwnTables(r)
  {
    forall w, u | (w, u) in r.inFlight
      ensures u != t && (w, u) in s.inFlight
    {
    }
  }

  lemma FlightLists(s: State, t: TaskId, r: State)
    requires Inv(s) && FlightStep(s, t, r)
    ensures ListsExact(r)
  {
  }

  lemma FlightReplies(s: State, t: TaskId, r: State)
    requires Inv(s) && FlightStep(s, t, r)
    ensures OwnReplies(r) && SenderKept(r) && SendersApart(r)
  {
  }

  lemma FlightCovered(s: State, t: TaskId, r: State)
    requires Inv(s) && FlightStep(s, t, r)
    ensures Covered(r)
  {
    forall u, w {
      OnListKept(s, r, u, w);
    }
  }

  lemma FlightKeeps(s: State, t: TaskId, r: State)
    requires Inv(s) && FlightStep(s, t, r)
    ensures Inv(r)
  {
    if s.calls[t].Pended? {
      RecordTables(s, t, r);
    } else {
      UnrecordTables(s, t, r);
    }
    FlightLists(s, t, r);
    FlightReplies(s, t, r);
    FlightCovered(s, t, r);
  }

  /** The call takes its own sender back: a failed send, or a timeout. */
  lemma WithdrawKeeps(s: State, t: TaskId, o: Outcome, r: State)
    requires Inv(s) && t in s.calls && (s.calls[t].SendFailed? || s.calls[t].TimedOut?)
    requires r == Move(s, t, Leaving(s.calls[t].worker, o)).(pending := s.pending - {t})
    requires o == ConnectionLost || o == DeadlineExceeded
    ensures Inv(r)
  {
    forall u, w {
      OnListKept(s, r, u, w);
    }
    assert CallsOwnTables(r) && ListsExact(r);
  }

  /** A sender changes hands: from `pending` to a replier. */
  lemma SenderTakenKeeps(s: State, m: Response, r: State)
    requires Inv(s) && m.task in s.pending
    requires r == s.(pending := s.pending - {m.task}, replying := s.replying[m.task := m])
    ensures Inv(r)
  {
    SenderTakenTables(s, m, r);
    forall u, w {
      OnListKept(s, r, u, w);
    }
    assert ListsExact(r);
  }

  lemma SenderTakenTables(s: State, m: Response, r: State)
    requires Inv(s) && m.task in s.pending
    requires r == s.(pending := s.pending - {m.task}, replying := s.replying[m.task := m])
    ensures SendersApart(r) && CallsOwnTables(r) && OwnReplies(r) && SenderKept(r)
  {
  }

  lemma ReplyKeeps(s: State, t: TaskId)
    requires Inv(s) && Enabled(s, Reply(t))
    ensures Inv(Step(s, Reply(t)))
  {
    var r := Step(s, Reply(t));
    forall u, w {
      OnListKept(s, r, u, w);
    }
    assert SendersApart(r) && CallsOwnTables(r) && OwnReplies(r);
    assert SenderKept(r) && ListsExact(r);
  }

  lemma StartDisconnectKeeps(s: State, d: nat, w: WorkerId)
    requires Inv(s) && Enabled(s, StartDisconnect(d, w))
    ensures Inv(Step(s, StartDisconnect(d, w)))
  {
    var r := Step(s, StartDisconnect(d, w));
    forall u, v {
      OnListKept(s, r, u, v);
    }
    assert CallsOwnTables(r) && ListsExact(r);
  }

  lemma EndDisconnectKeeps(s: State, d: nat)
    requires Inv(s) && Enabled(s, EndDisconnect(d))
    ensures Inv(Step(s, EndDisconnect(d)))
  {
    var r := Step(s, EndDisconnect(d));
    forall u, v {
      OnListKept(s, r, u, v);
    }
    assert CallsOwnTables(r) && ListsExact(r);
  }

  lemma TakeInFlightKeeps(s: State, d: nat)
    requires Inv(s) && Enabled(s, TakeInFlight(d))
    ensures Inv(Step(s, TakeInFlight(d)))
  {
    var r := Step(s, TakeInFlight(d));
    TakeInFlightTables(s, d);
    var worker := s.disconnects[d].worker;
    forall u, v {
      OnListKept(s, r, u, v);
    }
    forall t | t in InFlightOf(s, worker)
      ensures OnList(r, t, worker)
    {
      assert d in r.disconnects && t in r.disconnects[d].left;
    }
  }

  lemma TakeInFlightTables(s: State, d: nat)
    requires Inv(s) && Enabled(s, TakeInFlight(d))
    ensures var r := Step(s, TakeInFlight(d)); CallsOwnTables(r) && ListsExact(r)
  {
  }

  /** A task that is no longer pending may leave the list. */
  lemma ListShrinksKeeps(s: State, d: nat, t: TaskId, c: Disconnect, r: State)
    requires Inv(s) && d in s.disconnects && t !in s.pending && r == s.(disconnects := s.disconnects[d := c])
    requires c.worker == s.disconnects[d].worker && c.taken == s.disconnects[d].taken
    requires c.left == s.disconnects[d].left - {t}
    ensures Inv(r)
  {
    forall u, v | u != t {
      OnListKept(s, r, u, v);
    }
    assert CallsOwnTables(r) && ListsExact(r);
  }

  lemma FailTaskKeeps(s: State, d: nat, t: TaskId)
    requires Inv(s) && Enabled(s, FailTask(d, t))
    ensures Inv(Step(s, FailTask(d, t)))
  {
    var r := Step(s, FailTask(d, t));
    var s1 := s;
    if t in s.pending {
      s1 := s.(pending := s.pending - {t}, replying := s.replying[t := WorkerLost(t)]);
      SenderTakenKeeps(s, WorkerLost(t), s1);
    }
    ListShrinksKeeps(s1, d, t, r.disconnects[d], r);
  }

  /** The steps of a call up to its return, but for its table accesses. */
  lemma CallStepKeeps(s: State, t: TaskId, r: State)
    requires Inv(s) && t in s.calls && t in r.calls && r.calls == s.calls[t := r.calls[t]]
    requires SameTables(s, r) && SameLists(s, r)
    requires BeforePending(s.calls[t]) && (BeforePending(r.calls[t]) || r.calls[t] == Returned(NotFound) || r.calls[t] == Returned(NoWorker))
    ensures Inv(r)
  {
    NotYetPending(s, t);
    PhaseKeeps(s, t, r.calls[t], r);
  }

  predicate IsRegistry(a: Action) {
    a.OpenGroup? || a.JoinGroup? || a.AddDefinition? || a.LeaveGroup? || a.NoteEmpty? || a.DropGroup? || a.DropDefinition?
  }

  lemma RegistryStepKeeps(s: State, a: Action)
    requires Inv(s) && Enabled(s, a) && IsRegistry(a)
    ensures Inv(Step(s, a))
  {
    RegistryKeeps(s, Step(s, a));
  }

  lemma BeginKeeps(s: State, t: TaskId, tool: string)
    requires Inv(s) && t !in s.calls
    ensures Inv(Move(s, t, Started(tool)))
  {
    NotYetPending(s, t);
    PhaseKeeps(s, t, Started(tool), Move(s, t, Started(tool)));
  }

  lemma LookupStepKeeps(s: State, a: Action)
    requires Inv(s) && Enabled(s, a) && (a.LookupDefinition? || a.LookupGroup? || a.ChooseWorker?)
    ensures Inv(Step(s, a))
  {
    CallStepKeeps(s, a.task, Step(s, a));
  }

  /** A recorded or waiting call moves on without touching a table. */
  lemma WaitStepKeeps(s: State, a: Action)
    requires Inv(s) && Enabled(s, a) && (a.TrySend? || a.Receive? || a.FireTimeout?)
    ensures Inv(Step(s, a))
  {
    PhaseKeeps(s, a.task, Step(s, a).calls[a.task], Step(s, a));
  }

  lemma DisconnectStepKeeps(s: State, a: Action)
    requires Inv(s) && Enabled(s, a)
    requires a.StartDisconnect? || a.TakeInFlight? || a.FailTask? || a.EndDisconnect?
    ensures Inv(Step(s, a))
  {
    match a {
      case StartDisconnect(d, w) => StartDisconnectKeeps(s, d, w);
      case TakeInFlight(d) => TakeInFlightKeeps(s, d);
      case FailTask(d, t) => FailTaskKeeps(s, d, t);
      case EndDisconnect(d) => EndDisconnectKeeps(s, d);
    }
  }

  lemma TableStepKeeps(s: State, a: Action)
    requires Inv(s) && Enabled(s, a)
    requires a.Pend? || a.Record? || a.Unrecord? || a.GiveUpSend? || a.GiveUpWait? || a.TakeSender? || a.Reply?
    ensures Inv(Step(s, a))
  {
    match a {
      case Pend(t) => PendKeeps(s, t);
      case Record(t) => FlightKeeps(s, t, Step(s, a));
      case Unrecord(t) => FlightKeeps(s, t, Step(s, a));
      case GiveUpSend(t) => WithdrawKeeps(s, t, ConnectionLost, Step(s, a));
      case GiveUpWait(t) => WithdrawKeeps(s, t, DeadlineExceeded, Step(s, a));
      case TakeSender(m) =>
        if m.task in s.pending {
          SenderTakenKeeps(s, m, Step(s, a));
        }
      case Reply(t) => ReplyKeeps(s, t);
    }
  }

  /** A sender is never lost under a waiting call. */
  lemma NoSenderLost(s: State, t: TaskId)
    requires Inv(s)
    ensures !Enabled(s, NoticeSenderLost(t))
  {
  }

  lemma StepKeeps(s: State, a: Action)
    requires Inv(s) && Enabled(s, a)
    ensures Inv(Step(s, a))
  {
    if IsRegistry(a) {
      RegistryStepKeeps(s, a);
    } else if a.Begin? {
      BeginKeeps(s, a.task, a.tool);
    } else if a.LookupDefinition? || a.LookupGroup? || a.ChooseWorker? {
      LookupStepKeeps(s, a);
    } else if a.TrySend? || a.Receive? || a.FireTimeout? {
      WaitStepKeeps(s, a);
    } else if a.NoticeSenderLost? {
      NoSenderLost(s, a.task);
    } else if a.StartDisconnect? || a.TakeInFlight? || a.FailTask? || a.EndDisconnect? {
      DisconnectStepKeeps(s, a);
    } else {
      TableStepKeeps(s, a);
    }
  }

  // ── Disconnects do not overlap ──────────────────────────────────

  /** A task that a disconnect took is past its recording and in no worker's table. */
  ghost predicate TakenOnce(s: State) {
    && (forall d, t :: d in s.disconnects && Took(s.disconnects[d], t) ==>
          Detached(s, t))
    && (forall d, e, t :: d in s.disconnects && e in s.disconnects && d != e && Took(s.disconnects[d], t) ==>
          !Took(s.disconnects[e], t))
  }

  predicate Took(c: Disconnect, t: TaskId) {
    c.taken.Some? && t in c.taken.value
  }

  /** Past its recording and in no table: there is no way back. */
  ghost predicate Detached(s: State, t: TaskId) {
    t in s.calls && !BeforePending(s.calls[t]) && !s.calls[t].Pended? && forall w :: (w, t) !in s.inFlight
  }

  lemma StaysDetached(s: State, a: Action, t: TaskId)
    requires Detached(s, t) && Enabled(s, a)
    ensures Detached(Step(s, a), t)
  {
    OnlyRecordAdds(s, a);
    StaysPast(s, a, t);
  }

  lemma OnlyRecordAdds(s: State, a: Action)
    requires Enabled(s, a)
    ensures Step(s, a).inFlight <= s.inFlight + if a.Record? then {(s.calls[a.task].worker, a.task)} else {}
  {
  }

  lemma StaysPast(s: State, a: Action, t: TaskId)
    requires Enabled(s, a) && t in s.calls && !BeforePending(s.calls[t]) && !s.calls[t].Pended?
    ensures t in Step(s, a).calls && !BeforePending(Step(s, a).calls[t]) && !Step(s, a).calls[t].Pended?
  {
    if !MovesCall(a) {
      CallsStay(s, a);
    }
  }

  predicate MovesCall(a: Action) {
    a.Begin? || a.LookupDefinition? || a.LookupGroup? || a.ChooseWorker? || a.Pend? || a.Record? || a.TrySend?
    || a.GiveUpSend? || a.Receive? || a.NoticeSenderLost? || a.FireTimeout? || a.GiveUpWait? || a.Unrecord?
  }

  lemma CallsStay(s: State, a: Action)
    requires Enabled(s, a) && !MovesCall(a)
    ensures Step(s, a).calls == s.calls
  {
  }

  lemma TookBefore(s: State, a: Action, d: nat, t: TaskId)
    requires Enabled(s, a) && !a.TakeInFlight?
    requires d in Step(s, a).disconnects && Took(Step(s, a).disconnects[d], t)
    ensures d in s.disconnects && Took(s.disconnects[d], t)
  {
    if !(a.StartDisconnect? || a.FailTask? || a.EndDisconnect?) {
      ListsStay(s, a);
    }
  }

  lemma ListsStay(s: State, a: Action)
    requires Enabled(s, a) && !(a.StartDisconnect? || a.TakeInFlight? || a.FailTask? || a.EndDisconnect?)
    ensures Step(s, a).disconnects == s.disconnects
  {
  }

  lemma StepKeepsTakenOnce(s: State, a: Action)
    requires Inv(s) && TakenOnce(s) && Enabled(s, a)
    ensures TakenOnce(Step(s, a))
  {
    var r := Step(s, a);
    if a.TakeInFlight? {
      TakeKeepsTakenOnce(s, a.call);
    } else {
      forall d, t | d in r.disconnects && Took(r.disconnects[d], t)
        ensures Detached(r, t) && d in s.disconnects && Took(s.disconnects[d], t)
      {
        TookBefore(s, a, d, t);
        StaysDetached(s, a, t);
      }
    }
  }

  lemma TakeKeepsTakenOnce(s: State, d: nat)
    requires Inv(s) && TakenOnce(s) && Enabled(s, TakeInFlight(d))
    ensures TakenOnce(Step(s, TakeInFlight(d)))
  {
    var r := Step(s, TakeInFlight(d));
    forall e, t: TaskId | e in s.disconnects && Took(s.disconnects[e], t)
      ensures Detached(r, t) && !Took(r.disconnects[d], t)
    {
      TakenNotInFlight(s, e, t, s.disconnects[d].worker);
      StaysDetached(s, TakeInFlight(d), t);
    }
    forall t: TaskId | Took(r.disconnects[d], t)
      ensures Detached(r, t)
    {
      assert (s.disconnects[d].worker, t) in s.inFlight;
    }
  }

  lemma TakenNotInFlight(s: State, e: nat, t: TaskId, w: WorkerId)
    requires TakenOnce(s) && e in s.disconnects && Took(s.disconnects[e], t)
    ensures (w, t) !in s.inFlight
  {
    assert Detached(s, t);
  }

  // ── Runs ────────────────────────────────────────────────────────

  ghost predicate Run(s: State, actions: seq<Action>, r: State)
    decreases actions
  {
    if actions == [] then s == r else Enabled(s, actions[0]) && Run(Step(s, actions[0]), actions[1..], r)
  }

  ghost predicate Reachable(s: State) {
    exists actions :: Run(Initial, actions, s)
  }

  lemma {:induction false} RunKeeps(s: State, actions: seq<Action>, r: State)
    requires Run(s, actions, r) && Inv(s) && TakenOnce(s)
    ensures Inv(r) && TakenOnce(r)
    decreases actions
  {
    if actions != [] {
      StepKeeps(s, actions[0]);
      StepKeepsTakenOnce(s, actions[0]);
      RunKeeps(Step(s, actions[0]), actions[1..], r);
    }
  }

  lemma ReachableIsGood(s: State)
    requires Reachable(s)
    ensures Inv(s) && TakenOnce(s)
  {
    var actions :| Run(Initial, actions, s);
    RunKeeps(Initial, actions, s);
  }

  /** Once it has an outcome a call keeps it, whatever happens later. */
  lemma {:induction false} OneOutcome(s: State, actions: seq<Action>, r: State, t: TaskId)
    requires Run(s, actions, r) && t in s.calls && s.calls[t].Returned?
    ensures t in r.calls && r.calls[t] == s.calls[t]
    decreases actions
  {
    if actions != [] {
      StaysReturned(s, actions[0], t);
      OneOutcome(Step(s, actions[0]), actions[1..], r, t);
    }
  }

  lemma StaysReturned(s: State, a: Action, t: TaskId)
    requires Enabled(s, a) && t in s.calls && s.calls[t].Returned?
    ensures t in Step(s, a).calls && Step(s, a).calls[t] == s.calls[t]
  {
    if !MovesCall(a) {
      CallsStay(s, a);
    }
  }

  /** A returned call has left no trace in the tables; a reply it got is its own; it never
      reports that its sender was dropped. */
  lemma ReturnedCalls(s: State, t: TaskId)
    requires Reachable(s) && t in s.calls && s.calls[t].Returned?
    ensures t !in s.pending && forall w :: (w, t) !in s.inFlight
    ensures s.calls[t].outcome.Replied? ==> s.calls[t].outcome.response.task == t
    ensures s.calls[t].outcome != SenderLost
  {
    ReachableIsGood(s);
    ReturnedIsNowhere(s, t);
  }

  /** A recorded task that is still pending is in its worker's table, or a running
      disconnect of that worker has it on its list. */
  lemma PendingIsCovered(s: State, t: TaskId)
    requires Reachable(s) && t in s.pending
    ensures t in s.calls && MayBePending(s.calls[t])
    ensures s.calls[t].Pended? || (s.calls[t].worker, t) in s.inFlight || OnList(s, t, s.calls[t].worker)
  {
    ReachableIsGood(s);
  }

  /** When a disconnect returns, nothing it took is pending, and nothing it took will ever be
      pending again or be taken by another disconnect. */
  lemma DisconnectLeavesNothing(s: State, d: nat, t: TaskId, actions: seq<Action>, r: State)
    requires Reachable(s) && Enabled(s, EndDisconnect(d)) && Took(s.disconnects[d], t)
    requires Run(s, actions, r)
    ensures t !in s.pending && t !in r.pending
    ensures forall e :: e in r.disconnects && e != d ==> !Took(r.disconnects[e], t)
  {
    ReachableIsGood(s);
    StaysTaken(s, actions, r, d, t);
  }

  lemma {:induction false} StaysTaken(s: State, actions: seq<Action>, r: State, d: nat, t: TaskId)
    requires Run(s, actions, r) && Inv(s) && Detached(s, t) && t !in s.pending
    requires forall e :: e in s.disconnects && e != d ==> !Took(s.disconnects[e], t)
    ensures t !in r.pending
    ensures forall e :: e in r.disconnects && e != d ==> !Took(r.disconnects[e], t)
    decreases actions
  {
    if actions != [] {
      var a, s1 := actions[0], Step(s, actions[0]);
      StepKeeps(s, a);
      StaysDetached(s, a, t);
      StaysUnpended(s, a, t);
      forall e | e in s1.disconnects && e != d
        ensures !Took(s1.disconnects[e], t)
      {
        NotTakenNow(s, a, e, t);
      }
      StaysTaken(s1, actions[1..], r, d, t);
    }
  }

  lemma StaysUnpended(s: State, a: Action, t: TaskId)
    requires Enabled(s, a) && Detached(s, t) && t !in s.pending
    ensures t !in Step(s, a).pending
  {
  }

  lemma NotTakenNow(s: State, a: Action, e: nat, t: TaskId)
    requires Enabled(s, a) && Detached(s, t) && e in Step(s, a).disconnects
    ensures Took(Step(s, a).disconnects[e], t) ==> e in s.disconnects && Took(s.disconnects[e], t)
  {
    if !a.TakeInFlight? && Took(Step(s, a).disconnects[e], t) {
      TookBefore(s, a, e, t);
    }
  }

  // ── Round robin ─────────────────────────────────────────────────

  class WorkerGroup {
    var workers: seq<WorkerId>
    var nextIdx: nat

    ghost function Now(): Group
      reads this
    {
      Group(workers, nextIdx)
    }

    constructor ()
      ensures Now() == Group([], 0)
    {
      workers, nextIdx := [], 0;
    }

    method Add(w: WorkerId)
      modifies this`workers
      ensures Now() == AddWorker(old(Now()), w)
    {
      workers := workers + [w];
    }

    /** Keeps the workers with another id, in order. */
    method Remove(w: WorkerId)
      modifies this`workers
      ensures Now() == old(Now()).(workers := RemoveWorker(old(workers), w))
    {
      var kept: seq<WorkerId> := [];
      for i := 0 to |workers|
        invariant workers == old(workers) && kept + RemoveWorker(workers[i..], w) == RemoveWorker(workers, w)
      {
        ghost var rest := RemoveWorker(workers[i + 1..], w);
        assert workers[i..][1..] == workers[i + 1..];
        if workers[i] != w {
          assert kept + ([workers[i]] + rest) == (kept + [workers[i]]) + rest;
          kept := kept + [workers[i]];
        } else {
          assert [] + rest == rest;
        }
      }
      assert kept + [] == kept;
      workers := kept;
    }

    method GetNextWorker() returns (w: Option<WorkerId>)
      modifies this`nextIdx
      ensures (Now(), w) == NextWorker(old(Now()))
    {
      if workers == [] {
        return None;
      }
      w := Some(workers[nextIdx % |workers|]);
      nextIdx := nextIdx + 1;
    }
  }

  /** A worker that is removed is gone with all its entries; the others stay as often as before. */
  lemma {:induction false} RemovesOne(ws: seq<WorkerId>, w: WorkerId)
    ensures multiset(RemoveWorker(ws, w)) == multiset(ws)[w := 0]
  {
    if ws != [] {
      RemovesOne(ws[1..], w);
      assert ws == [ws[0]] + ws[1..];
      assert multiset(RemoveWorker(ws, w)) == multiset(if ws[0] == w then [] else [ws[0]]) + multiset(RemoveWorker(ws[1..], w));
    }
  }

  /** And they keep their order. */
  lemma {:induction false} RemovesInOrder(a: seq<WorkerId>, b: seq<WorkerId>, w: WorkerId)
    ensures RemoveWorker(a + b, w) == RemoveWorker(a, w) + RemoveWorker(b, w)
  {
    if a == [] {
      assert a + b == b && RemoveWorker(a, w) == [];
    } else {
      var x, p, q := if a[0] == w then [] else [a[0]], RemoveWorker(a[1..], w), RemoveWorker(b, w);
      RemovesInOrder(a[1..], b, w);
      assert (a + b)[1..] == a[1..] + b && (a + b)[0] == a[0];
      assert x + (p + q) == (x + p) + q;
    }
  }

  /** The workers chosen by `n` invocations in a row. */
  function Picks(g: Group, n: nat): seq<WorkerId>
    requires g.workers != []
    decreases n
  {
    if n == 0 then []
    else
      var (g1, w) := NextWorker(g);
      [w.value] + Picks(g1, n - 1)
  }

  lemma {:induction false} PickAt(g: Group, n: nat, k: nat)
    requires g.workers != [] && k < n
    ensures |Picks(g, n)| == n && Picks(g, n)[k] == g.workers[(g.next + k) % |g.workers|]
    decreases n
  {
    if n > 1 {
      PickAt(NextWorker(g).0, n - 1, if k > 0 then k - 1 else 0);
    }
  }

  lemma PicksRotate(g: Group)
    requires g.workers != []
    ensures var c := g.next % |g.workers|; Picks(g, |g.workers|) == g.workers[c..] + g.workers[..c]
  {
    var n := |g.workers|;
    var c := g.next % n;
    var picks, rotated := Picks(g, n), g.workers[c..] + g.workers[..c];
    PickAt(g, n, 0);
    forall k | 0 <= k < n
      ensures picks[k] == rotated[k]
    {
      PickAt(g, n, k);
      TurnAfter(g.next, k, n);
    }
    assert |picks| == |rotated|;
  }

  /** As many invocations in a row as there are entries use every entry once. */
  lemma RoundRobin(g: Group)
    requires g.workers != []
    ensures multiset(Picks(g, |g.workers|)) == multiset(g.workers)
  {
    PicksRotate(g);
    var c := g.next % |g.workers|;
    assert g.workers == g.workers[..c] + g.workers[c..];
  }

  lemma TurnAfter(next: nat, k: nat, n: nat)
    requires k < n
    ensures (next + k) % n == if next % n + k < n then next % n + k else next % n + k - n
  {
    var q, c := next / n, next % n;
    if c + k < n {
      RemainderIs(next + k, n, q, c + k);
    } else {
      RemainderIs(next + k, n, q + 1, c + k - n);
    }
  }

  lemma RemainderIs(x: nat, n: nat, q: int, r: nat)
    requires r < n && x == q * n + r
    ensures x % n == r
  {
    var d := q - x / n;
    assert d * n == x % n - r;
    if d >= 1 {
      ProductAtLeast(d, n);
    } else if d <= -1 {
      ProductAtLeast(-d, n);
    }
  }

  lemma ProductAtLeast(d: int, n: nat)
    requires d >= 1
    ensures d * n >= n
  {
    assert (d - 1) * n >= 0;
  }
}
