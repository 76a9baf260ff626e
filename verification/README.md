# tinypipe: a verified model

tinypipe compiles a restricted Python into a graph of nodes and edges, validates and draws that
graph, runs it with isolated parallel branches, hands tool calls to remote workers, checks its
environment before it runs, and keeps versions, forks and paused executions in SQLite tables. This
project models those stages in Dafny and proves what they promise, separately and together.

| module | what it models |
|---|---|
| `Ast`, `TransformSpec`, `Transform` | the AST, what each step of the transform does to the plan, and the engine that does it in place |
| `TransformOrder`, `TransformReads` | every compiled graph is acyclic; the data flow of expressions |
| `TransformSites`, `TransformBranches`, `TransformParts` | the statements walked and what each leaves in the finished plan: where branches lead, what joins are fed by, labels, opcodes, variables |
| `TransformTrace`, `TransformFollows`, `TransformLeaks` | what a program records while it is transformed, read off its syntax; which programs are accepted, and which edges their branch nodes get |
| `Graphs`, `Plan` | walks, cycles and reachability; plans and Kahn's sort |
| `Validator`, `ValidPlans`, `Compiled`, `PlanView` | validation, what a valid plan is, the index-based plan, the projection and the collapse of the drawing |
| `Pipeline` | what these stages promise together |
| `Context`, `ContextRuns` | parallel branches, their scopes and the seven merge strategies; what a run of branches leaves behind |
| `Daemon`, `DaemonOutcomes`, `DaemonRegistry` | the dispatch protocol as interleaved steps, and the round robin; what a call returns and what the registry holds, told by the run |
| `Env`, `EnvCheck`, `Template`, `EnvDeps` | scoped lookup, the check over the subgraph call graph, the two template scanners, the static scan of a plan and the tools that read the environment |
| `History`, `HistoryOrigins`, `Storage`, `PlanCache` | versions, rollbacks and forks, and where each recorded thing comes from; the tables behind them; the cache of decoded plans |
| `Executions`, `Scheduler` | writes of executions and checkpoints, resumption, scheduler rounds |

Where the source changes state in place (`TransformEngine`, `Context`, `WorkerGroup`, `SqliteStorage`,
the plan cache, the execution table, the scheduler) the model is a class. Each of its methods is tied to
a function on values, and the theorems are about those functions and about all their runs. Protocols
with concurrent parts (`Daemon`, `PlanCache`, `Executions`) are also given as small steps, one access
to one shared table each, and the theorems hold for every interleaving.

## What does not hold

Some tempting statements are false of the code. The model keeps the code, and says exactly when they hold.

- A program that walks a `match` never passes the validator: the transform gives its SWITCH a `source`
  argument, the validator asks for `condition` (`Pipeline.MatchIsRejected`); an argument is missing exactly
  if a `match` is walked (`Pipeline.OnlyNodeFlaws`). A `match` that is written is walked unless a fault is
  recorded (`Pipeline.WrittenAndWalked`); behind a fault it is passed over, and then the plan can be valid
  (`Pipeline.MatchCanBePassedOver`).
- A program that walks an `assert` never passes either (`Pipeline.AssertIsRejected`): its DECIDE gets no
  branches. Every DECIDE has both its branches exactly if no `assert` is walked (`Pipeline.BranchRules`).
- A DECIDE can get an edge without a condition (`Pipeline.MixedBodyLeaks`), which the validator reports. It
  does exactly if the syntax has a leak: a branch that ends in an `if` that always returns without always
  returning itself, or a chain that goes on behind a DECIDE (`Pipeline.UnconditionalIff`).
- So an accepted program need not have a valid plan. `Pipeline.ValidIff` puts the rules together into one
  condition.
- A recorded fault is returned only when the next statement starts, so that a program whose last statement
  has one is accepted (`TransformFollows.LastFaultIsKept`). A program is accepted exactly if no statement
  starts after a fault (`TransformFollows.AcceptedIff`), and free of faults exactly if its trace is
  (`TransformFollows.FaultFreeIff`).
- A variable that existed before an `if` and is assigned in a branch does not move to the MERGE, whatever branch
  runs: what reads it next depends on the node that the last assignment in the text made. Only a variable that is new in a
  branch becomes the MERGE (`TransformParts.IfVariables`).
- The static scanner and the resolver do not always find the same placeholders: an escaped `$${K}` is a
  mandatory key to one and text to the other (`Template.EscapeIsScanned`). They find the same ones in a
  template if and only if they walk it in step (`Template.FindsAgree`), and agree on a single placeholder
  under the condition of `Template.SpecsAgree`. To set what the scanner calls mandatory guarantees that a
  template resolves if and only if each key that the resolver cannot do without is among it
  (`Template.ScanGuarantees`).
- The plan on a graph's head row is not always the plan of its newest version; `History.HeadPlanAfter`
  says exactly after which operations it is, and `History.RollbackCanLeaveAnOldPlan` gives a run.
- `Avg` halves at every branch, so it is no mean; it is one if and only if the contributions are balanced
  (`Context.AvgIsHalving`, `Context.BalancedFew`), for which there is one possible last value
  (`Context.BalancedNext`). `Sum` drops what would overflow, and is the total if and
  only if what it dropped adds up to nothing (`Context.SumDropsOverflow`).
- Saving another plan for a version that is already cached goes unnoticed (`PlanCache.RewrittenPlanIsNotSeen`).
  The lookup afterwards agrees with the tables if and only if what was saved decodes to what the code of the
  version compiles to (`PlanCache.CachedAfterSave`); and a store whose plans are in order stays so under exactly
  the operations that save such plans (`PlanCache.DisciplineIff`).
- Two overlapping resumptions of one execution can take it out of its final state, and leave it paused
  without a checkpoint for as long as it takes to write one (`Executions.OverlapReopens`). A final row stays
  in every continuation if and only if no call that is open has a write to come that would change it, or has
  read the row while it was paused and can still come to one (`Executions.FinalRowStaysIff`). As long as no
  execution has two calls open at once there is no such call, and a final row never changes, however the
  steps interleave (`Executions.FinalRowsStay`).

## Model

| member | source | states |
|---|---|---|
| Plan.TopologicalOrder | tinypipe-ir/src/plan.rs:357-394 | Kahn's sort is exact: with distinct ids it succeeds if and only if no edge from an unknown node enters a known one and the edges between known nodes form no cycle; the result is a permutation of the nodes with every edge forward |
| Plan.Release | tinypipe-ir/src/plan.rs:375-385 | finishing a node discounts exactly its outgoing edges, never below zero, and queues exactly the nodes that become free |
| Plan.InDegrees | tinypipe-ir/src/plan.rs:358-366 | every counter is the number of edges into its node |
| Plan.SortableWithoutDangling | tinypipe-ir/src/plan.rs:357-394 | with distinct ids and no dangling edge, the condition of the sort is acyclicity of the edge relation |
| Plan.GetNode | tinypipe-ir/src/plan.rs:342-344 | finds the first node with the id, if there is one |
| Plan.EdgesFrom | tinypipe-ir/src/plan.rs:347-349 | exactly the edges that leave the node |
| Plan.EdgesFromInOrder | tinypipe-ir/src/plan.rs:347-349 | the edges that leave a node come in plan order and as often as in the plan |
| Transform.TransformEngine.TransformModule | tinypipe-compiler/src/transform.rs:185-251 | the engine, updating its fields, reaches the state that the specification gives for the module, or the same faults |
| Transform.TransformEngine.TransformStmt | tinypipe-compiler/src/transform.rs:278-576 | the same for each statement, whatever the state it starts in |
| Transform.TransformEngine.TransformIf | tinypipe-compiler/src/transform.rs:680-811 | the same for `if`, its gates, its MERGE and the variables moved to it |
| Transform.TransformEngine.TransformFor | tinypipe-compiler/src/transform.rs:421-487 | the same for `for` |
| Transform.TransformEngine.TransformWith | tinypipe-compiler/src/transform.rs:488-529 | the same for PARALLEL and GROUP blocks, which restore the branch and group around them |
| Transform.TransformEngine.TransformMatch | tinypipe-compiler/src/transform.rs:580-658 | the same for `match` |
| Transform.TransformEngine.TransformExprToNode | tinypipe-compiler/src/transform.rs:818-929 | the same for expressions: a call is numbered before its arguments, a builtin after them |
| Transform.TransformEngine.WireExprDependencies | tinypipe-compiler/src/transform.rs:932-1021 | the same for the edges of variable references |
| TransformOrder.CompletionOrder | tinypipe-compiler/src/transform.rs:185-251 | for every accepted program there is an order of completion in which all edges go forward |
| TransformOrder.NumbersAreNoOrder | tinypipe-compiler/src/transform.rs:847-857 | node numbers are no such order: the node of a call is numbered before its argument and fed by it |
| TransformOrder.CompilesToDag | tinypipe-compiler/src/transform.rs:185-251 | every accepted program, however nested, gives distinct node ids and an acyclic edge relation |
| TransformOrder.CompilesToSortable | tinypipe-compiler/src/transform.rs:185-251 | a program without `pass`, empty GROUPs and faults, as read off its syntax, is accepted, no edge dangles and the sort succeeds |
| TransformOrder.ToNodeGood | tinypipe-compiler/src/transform.rs:818-929 | an expression keeps the order: its node completes after everything that it depends on, while enclosing calls stay open |
| TransformOrder.StmtGood | tinypipe-compiler/src/transform.rs:278-576 | every statement keeps the order and enters and leaves at completed ids |
| TransformReads.WiresNames | tinypipe-compiler/src/transform.rs:932-1021 | the edges added are exactly those from the writers of the names in the expression |
| TransformReads.ReadsAreFed | tinypipe-compiler/src/transform.rs:818-1021 | there is a path to the node of an expression from the writer of every variable that it reads, and new edges leave only new nodes and those writers |
| TransformReads.DefinitionReachesUse | tinypipe-compiler/src/transform.rs:290-322 | after an assignment, what reads the variable next depends on the node assigned, and does so in every continuation |
| TransformSites.ModuleSites | tinypipe-compiler/src/transform.rs:185-251 | in every accepted program each branching node belongs to a walked statement of its kind, each label comes from an enclosing block, and no statement is given condition edges after its end |
| TransformSites.StmtSites | tinypipe-compiler/src/transform.rs:278-576 | the same for every statement in every state; control enters and leaves it at ids of its own |
| TransformBranches.BranchNodesAreOpened | tinypipe-compiler/src/transform.rs:278-576 | every DECIDE of a finished plan is that of a walked `if` or `assert`, every SWITCH, LOOP and PARALLEL that of its statement |
| TransformBranches.IfBranches | tinypipe-compiler/src/transform.rs:693-749 | in the finished plan the condition edges of an `if` are exactly: for true to the first and last node of its body, for false to those of its `else`, or to the MERGE if it has none |
| TransformBranches.TrueEntersBody | tinypipe-compiler/src/transform.rs:693-790 | told by numbers: true leads to nodes numbered while the body was walked and to its last one, false to nodes numbered while the `else` was walked and to its last one, or to the MERGE |
| TransformParts.MergeIsFed | tinypipe-compiler/src/transform.rs:764-778 | the MERGE is fed by the last node of each branch that does not return as a whole, and by nothing else |
| TransformParts.IfVariables | tinypipe-compiler/src/transform.rs:693-805 | after an `if` a variable that is new in a branch is the MERGE; one that existed before is what the branches left behind |
| TransformParts.LoopEntersBody | tinypipe-compiler/src/transform.rs:421-487 | in the finished plan a LOOP leads to the first node of its body, in which the target is the LOOP |
| TransformParts.ProgramIsChained | tinypipe-compiler/src/transform.rs:234-250 | in the finished plan control goes on from each statement of the program to the next, unless it always returns |
| TransformParts.BlockIsChained | tinypipe-compiler/src/transform.rs:421-529 | the same in loop bodies, and in a GROUP with data edges |
| TransformParts.ParallelLabels | tinypipe-compiler/src/transform.rs:488-500 | in the finished plan a PARALLEL leads to each child, and the nodes of child `k` carry number `k`, except where a PARALLEL inside has put its own |
| TransformParts.GroupLabels | tinypipe-compiler/src/transform.rs:501-529 | in the finished plan the nodes of a GROUP carry its title, except where a GROUP inside has put its own |
| TransformParts.TopIsUnlabelled | tinypipe-compiler/src/transform.rs:130-147 | outside of such blocks nodes carry no label |
| TransformParts.MatchLeads | tinypipe-compiler/src/transform.rs:596-650 | in the finished plan the condition edges of a SWITCH lead, under the text of each literal case, to the last statement of that case, and nowhere else |
| TransformParts.AskedIsFed | tinypipe-compiler/src/transform.rs:421-694 | in the finished plan each branching node is fed by the condition, iterable or subject of its statement |
| TransformParts.ExprOpcode | tinypipe-compiler/src/transform.rs:818-929 | `call` and `act` become CALL nodes, `sleep` a WAIT, every other expression a CALC |
| TransformParts.SimpleStatements | tinypipe-compiler/src/transform.rs:323-567 | in the finished plan `return`, `break` and `continue` are ACT nodes, `raise` an ERROR, `assert` a DECIDE, an augmented assignment a CALC, and a returned value is fed to its ACT |
| TransformParts.AssignedIsOutput | tinypipe-compiler/src/transform.rs:290-322 | an assigned variable is the node of its value, which stores its result |
| TransformParts.AugmentedReachesUse | tinypipe-compiler/src/transform.rs:344-380 | after an augmented assignment the variable is the new node, fed by what it was and by the value; other variables stay |
| TransformParts.ParamsAreInputs | tinypipe-compiler/src/transform.rs:217-227 | each parameter is bound to a new INPUT node, and other variables stay |
| TransformParts.BoundReachesUse | tinypipe-compiler/src/transform.rs:932-1021 | whatever a variable is bound to, an expression that reads it depends on that node, in every continuation |
| TransformFollows.StmtFollows | tinypipe-compiler/src/transform.rs:278-576 | every statement, in every state, records, refuses and leaves branch nodes exactly as its trace says; new conditional edges leave new nodes only |
| TransformFollows.ExprFollows | tinypipe-compiler/src/transform.rs:818-929 | the same for expressions, whose only fault is a dynamic call |
| TransformFollows.AcceptedIff | tinypipe-compiler/src/transform.rs:185-251 | a program is accepted if and only if it has a `graph`, at most one META, and no statement that starts after a fault; the faults kept are those of its trace |
| TransformFollows.FaultFreeIff | tinypipe-compiler/src/transform.rs:234-250 | a program is free of faults, as read off its syntax, if and only if it is accepted with none recorded |
| TransformFollows.FaultsComeLast | tinypipe-compiler/src/transform.rs:284-286 | the faults of an accepted program were all recorded after its last statement had started |
| TransformFollows.LastFaultIsKept | tinypipe-compiler/src/transform.rs:234-250 | a program that is accepted with a fault recorded |
| TransformFollows.SwitchIff | tinypipe-compiler/src/transform.rs:580-594 | the plan has a SWITCH without a condition if and only if a `match` is walked |
| TransformFollows.BranchesAreThere | tinypipe-compiler/src/transform.rs:555-567 | every DECIDE, LOOP and PARALLEL of an accepted program has its edges, but for the DECIDE of an `assert`, which gets no branches |
| TransformTrace.PlayFromStart | tinypipe-compiler/src/transform.rs:284-286 | a walk ends normally if and only if no statement starts after a fault |
| TransformTrace.StmtMatches | tinypipe-compiler/src/transform.rs:580-658 | only a `match` is walked as one, and without faults every `match` in a statement is walked |
| TransformSpec.StmtStep | tinypipe-compiler/src/transform.rs:278-576 | the id counter never falls, edges are only added, branch and group are restored, and every node keeps the arguments that the validator asks of it, SWITCH excepted |
| Validator.Validate | tinypipe-compiler/src/validator.rs:80-484 | complete and sound: the errors are exactly the duplicate ids and dangling ends if there are any, else exactly the flaws of the graph; none if and only if the plan is valid |
| Validator.CheckReferences | tinypipe-compiler/src/validator.rs:98-128 | reports exactly the duplicated ids and the unknown edge ends |
| Validator.Collect | tinypipe-compiler/src/validator.rs:492-511 | the search adds exactly what is reachable, although the visited set is shared between calls |
| Validator.CanReachAny | tinypipe-compiler/src/validator.rs:514-535 | true if and only if some target is reachable |
| Validator.LoopBodies | tinypipe-compiler/src/validator.rs:238-256 | exactly the nodes that data edges reach from an unconditional successor of a LOOP |
| Validator.EdgeErrors | tinypipe-compiler/src/validator.rs:297-410 | the edge rules of each opcode, reported exactly when broken |
| Validator.ArgErrors | tinypipe-compiler/src/validator.rs:592-636 | exactly the required arguments that are missing |
| Validator.CyclesEnterLoops | tinypipe-compiler/src/validator.rs:138-173 | every cycle of a valid plan has an edge into a LOOP |
| Validator.ValidNodesComeFromRoots | tinypipe-compiler/src/validator.rs:175-211 | every node of a valid plan has a path from a node without incoming edges |
| Validator.ValidNodesCanEnd | tinypipe-compiler/src/validator.rs:213-290 | every non-terminal node of a valid plan with an outgoing edge, outside loop bodies, has a path to ACT, ERROR, LOOP or a loop body |
| Validator.AcyclicIsReachable | tinypipe-compiler/src/validator.rs:175-211 | the reachability check never fires on an acyclic plan |
| ValidPlans.ValidPlanIff | tinypipe-compiler/src/validator.rs:80-636 | a plan is valid if and only if no reference dangles, it has an ACT or ERROR, every cycle enters a LOOP, and each node is reached from a root, leads to an end, has the arguments of its opcode and leaves as its opcode asks |
| Compiled.FromExecutionPlan | tinypipe-ir/src/compiled.rs:137-239 | each node and edge has its counterpart at the same position, by index, with its group's title index |
| Compiled.SameArcs | tinypipe-ir/src/compiled.rs:186-211 | with distinct ids and no dangling end no endpoint is the sentinel, and arcs correspond |
| Compiled.IndexStands | tinypipe-ir/src/compiled.rs:137-211 | an index is the place of the last node with that id, or the sentinel if there is none |
| Compiled.SameReachability | tinypipe-ir/src/compiled.rs:137-239 | paths between nodes are paths between their indices, and back |
| Compiled.TitlesInFirstUseOrder | tinypipe-ir/src/compiled.rs:147-174 | group titles are distinct, each is used, and they are listed in the order of first use |
| Compiled.NodeRoundTrip | tinypipe-ir/src/compiled.rs:258-665 | writing and reading a node record gives the node back exactly if neither its branch id nor its group id is the sentinel, which comes back as absent; a second round trip changes nothing |
| Compiled.EdgeRoundTrip | tinypipe-ir/src/compiled.rs:258-665 | the same for edges, whose priority 0 and empty condition or label come back as absent |
| PlanView.Project | tinypipe-ir/src/plan_view.rs:206-303 | the visible nodes in plan order; one view edge for each pair of distinct visible nodes joined by a path of hidden nodes, no others, none twice, each looking like the first plan edge that draws it; the recursion ends if the hidden nodes form no cycle |
| PlanView.VisibleAreThose | tinypipe-ir/src/plan_view.rs:207-219 | no node that stays is lost and none is added |
| PlanView.VisibleInOrder | tinypipe-ir/src/plan_view.rs:207-219 | and they come in plan order |
| PlanView.CaptionIs | tinypipe-ir/src/plan_view.rs:283-291 | an edge is labelled with its condition, else its own label, without the quotes around; not at all if nothing is left |
| PlanView.VisibleRoots | tinypipe-ir/src/plan_view.rs:222-243 | exactly the visible nodes from which hidden nodes lead here, each once |
| PlanView.VisibleLeaves | tinypipe-ir/src/plan_view.rs:244-262 | exactly the visible nodes to which hidden nodes lead from here, each once |
| PlanView.ProjectKeepsReachability | tinypipe-ir/src/plan_view.rs:206-303 | hiding nodes changes nothing about who reaches whom among the visible ones |
| PlanView.Collapse | tinypipe-ir/src/plan_view.rs:307-393 | the quotient by GROUP: one edge for each ordered pair of distinct classes joined by a view edge, and one box per group and ungrouped node, with the group's size |
| PlanView.KeysNameClasses | tinypipe-ir/src/plan_view.rs:307-393 | within the index bounds the keys of groups and nodes never collide: equal keys mean the same class |
| PlanView.StepsAddUp | tinypipe-ir/src/plan_view.rs:307-393 | step counts and ungrouped nodes add up to the visible nodes |
| PlanView.MembersAre | tinypipe-ir/src/plan_view.rs:317-325 | the members of a group are the visible nodes with its number, the others stand alone |
| PlanView.CollapseKeepsReachability | tinypipe-ir/src/plan_view.rs:307-393 | paths in the view are paths, or equality, in the summary |
| PlanView.BuildView | tinypipe-ir/src/plan_view.rs:145-153 | from the plan to the boxes: every visible node is in a box, group boxes count theirs and add up, and what reaches what in the plan does so in the view |
| Pipeline.OnlyNodeFlaws | tinypipe-compiler/src/lib.rs:36-60 | the plan of an accepted program has no cycle, no unreachable node unless an edge dangles, and a missing argument exactly if a `match` is walked |
| Pipeline.ReferencesInOrder | tinypipe-compiler/src/validator.rs:98-128 | ids are distinct in every accepted program, and without `pass`, empty GROUPs and faults no edge dangles |
| Pipeline.UnconditionalIff | tinypipe-compiler/src/transform.rs:751-772 | in the plan of an accepted program a DECIDE has an edge without a condition if and only if the syntax has a leak |
| Pipeline.MixedBodyLeaks | tinypipe-compiler/src/transform.rs:751-772 | a body that computes something before an `if` that returns on both sides is one |
| TransformLeaks.StmtGoes | tinypipe-compiler/src/transform.rs:278-576 | every statement adds an unconditional edge from a DECIDE exactly if its syntax leaks, and ends at a DECIDE exactly if its syntax does |
| Pipeline.BranchRules | tinypipe-compiler/src/validator.rs:297-372 | in every accepted program each LOOP and PARALLEL has a body, and each DECIDE has both branches if and only if no `assert` is walked |
| Pipeline.ValidIff | tinypipe-compiler/src/validator.rs:80-484 | the plan of an accepted program without empty bodies is valid if and only if no edge dangles, it has an ACT or ERROR, whatever has a successor outside of loop bodies leads to an end, and the program walks no `match` and no `assert` and has no leak |
| TransformLeaks.ConditionsInPlace | tinypipe-compiler/src/transform.rs:185-251 | in the plan of an accepted program edges with a condition leave DECIDE and SWITCH nodes only |
| Pipeline.IfIsGated | tinypipe-compiler/src/transform.rs:680-811 | the DECIDE of an `if` has an edge for true and one for false, with and without an `else`, whatever returns inside |
| Pipeline.LoopHasBody | tinypipe-compiler/src/transform.rs:421-487 | a LOOP has an edge into its body in every continuation |
| Pipeline.ParallelHasBody | tinypipe-compiler/src/transform.rs:488-529 | a PARALLEL has an edge to its first branch in every continuation |
| Pipeline.MatchIsRejected | tinypipe-compiler/src/validator.rs:592-636 | an accepted program that walks a `match` has no valid plan |
| Pipeline.WrittenAndWalked | tinypipe-compiler/src/transform.rs:580-658 | a `match` that is walked is written, and without faults one that is written is walked |
| Pipeline.MatchCanBePassedOver | tinypipe-compiler/src/transform.rs:421-430 | a program with a `match` behind its last fault, whose plan is valid |
| Pipeline.AssertIsRejected | tinypipe-compiler/src/transform.rs:555-567 | an accepted program that walks an `assert` has no valid plan |
| Pipeline.ValidPlansProject | tinypipe-ir/src/plan_view.rs:145-178 | the nodes that the view hides in a validated plan form no cycle, so the projection ends |
| Pipeline.ViewKeepsPaths | tinypipe-ir/src/plan_view.rs:145-303 | from plan to drawing: visible nodes reach each other in the drawing exactly if they do in the plan |
| Pipeline.Draw | tinypipe-ir/src/plan_view.rs:145-153 | the stages fit together: validation succeeds exactly on valid plans, and then the drawing has the paths of the plan |
| Context.ExecutionContext.Read | tinypipe-api/src/types.rs:248-262 | own scope, then the entry snapshot, then the globals; a branch sees no other branch |
| Context.ExecutionContext.Write | tinypipe-api/src/types.rs:268-280 | writes the active branch's scope, or the globals outside branches |
| Context.ExecutionContext.StartParallel | tinypipe-api/src/types.rs:284-292 | the whole new state: snapshot taken, scopes cleared, no branch active |
| Context.ExecutionContext.MergeBranches | tinypipe-api/src/types.rs:343-426 | the merge in place, over hash maps in any order, gives the per-key fold and clears the branches |
| Context.MergeDetermined | tinypipe-api/src/types.rs:343-426 | the merged context is determined: hash order does not show |
| Context.MergePerKey | tinypipe-api/src/types.rs:343-426 | each key is the left fold of the strategies over the branches that wrote it, in ascending id |
| ContextRuns.MergeBrings | tinypipe-api/src/types.rs:343-426 | after a run of branches and the merge each key is the fold over the branches that wrote it, in ascending order, each with the last value it wrote and the last strategy it chose, `Last` if none |
| ContextRuns.HighestWriterWins | tinypipe-api/src/types.rs:182-186 | a key for which the highest branch that wrote it chose no strategy has the last value that branch wrote, whatever stood there before |
| ContextRuns.ChosenIsUsed | tinypipe-api/src/types.rs:331-355 | where branches chose, their last choice is the strategy used |
| ContextRuns.ReadOrder | tinypipe-api/src/types.rs:248-262 | what is read is the active branch's own value, else the snapshot's, else the global one |
| ContextRuns.ReadBack | tinypipe-api/src/types.rs:248-280 | what was written is read back, unless a snapshot with another value hides it outside of branches; no other key reads differently |
| Context.MismatchesKeep | tinypipe-api/src/types.rs:359-422 | values that a strategy cannot combine: the arithmetic ones keep what was there, Concat takes the new value |
| Context.LastWins | tinypipe-api/src/types.rs:353-355 | Last gives the value of the highest branch that wrote |
| Context.FirstWins | tinypipe-api/src/types.rs:356-358 | First gives the value from before, else that of the lowest branch that wrote |
| Context.SumIsTotal | tinypipe-api/src/types.rs:401-410 | with or without a value from before, integer Sum is the exact total if no partial sum overflows |
| Context.SumOfNumbers | tinypipe-api/src/types.rs:63-71 | Sum of integers and floats is their sum, a float as soon as one of them is, if the integers before the first float do not overflow |
| Context.SumDropsOverflow | tinypipe-api/src/types.rs:401-410 | integer Sum is the total less what found no room, and the exact total if and only if that adds up to nothing |
| Context.NothingDropped | tinypipe-api/src/types.rs:63-71 | nothing is dropped if and only if no partial sum overflows |
| Context.ConcatIsInOrder | tinypipe-api/src/types.rs:383-400 | array Concat is the value from before, if any, and the arrays in branch order |
| Context.ConcatTextIsInOrder | tinypipe-api/src/types.rs:383-400 | string Concat is the value from before, if any, and the strings in branch order |
| Context.MinIsLeast | tinypipe-api/src/types.rs:359-370 | Min of numbers is one of the contributions and below all, the value from before included if there is one |
| Context.MaxIsGreatest | tinypipe-api/src/types.rs:371-382 | Max of numbers is one of the contributions and above all, the value from before included if there is one |
| Context.AvgOfThree | tinypipe-api/src/types.rs:411-422 | three values without one from before give their mean exactly if the last is the mean of the first two |
| Context.AvgIsHalving | tinypipe-api/src/types.rs:411-422 | Avg of any number of contributions in closed form, with and without a value from before; it is their mean if and only if they are balanced |
| Context.BalancedFew | tinypipe-api/src/types.rs:411-422 | one contribution or two are always balanced, three exactly if the last is the mean of the others |
| Context.BalancedNext | tinypipe-api/src/types.rs:411-422 | from the third contribution on exactly one value, given outright, makes the result the mean; after a balanced start it is the mean so far |
| Context.FoldsAgree | tinypipe-api/src/types.rs:343-426 | where all branches use one strategy, the value from before counts as the first contribution |
| Context.ScopesAreOwn | tinypipe-api/src/types.rs:268-325 | after any interleaving each branch's scope is what the branch would have made alone |
| Context.ReadsAreOwn | tinypipe-api/src/types.rs:248-262 | a branch's reads depend on its own writes, the snapshot and the globals only |
| Context.InterleavingIrrelevant | tinypipe-api/src/types.rs:248-426 | two interleavings with the same order within each branch give the same reads, scopes and merge |
| Context.ForkJoin | tinypipe-api/src/types.rs:320-329 | threads that each run one branch on a copy and hand back its scope do what any interleaving does |
| Daemon.StepKeeps | tinypipe-daemon/src/lib.rs:149-280 | every single access of registration, invocation, response, timeout and disconnect to a shared table keeps the invariant of the tables |
| Daemon.ReachableIsGood | tinypipe-daemon/src/lib.rs:99-376 | so the invariant holds in every reachable state |
| Daemon.OneOutcome | tinypipe-daemon/src/lib.rs:206-280 | an invocation has one outcome at most: once it has one it keeps it over every further run |
| Daemon.ReturnedCalls | tinypipe-daemon/src/lib.rs:240-280 | an invocation that returned is in no table, its reply carries its own task id, and it never reports a dropped sender |
| DaemonOutcomes.OutcomeIsCaused | tinypipe-daemon/src/lib.rs:206-280 | whatever a call returns has its cause in the run: a reply is the message taken up for it while it was pending, a worker's as it came or the failure of a disconnect; not found, no worker, lost and deadline each their event |
| DaemonOutcomes.TakenIsReceived | tinypipe-daemon/src/lib.rs:355-370 | the message taken up while a task is pending is the one its call receives, if it receives any |
| DaemonOutcomes.MissIff | tinypipe-daemon/src/lib.rs:209-224 | a call returns not found if and only if its tool was in no table when it looked, and no worker if and only if the group it had found was empty |
| DaemonOutcomes.GiveUpIff | tinypipe-daemon/src/lib.rs:248-279 | a call that returns reports a lost connection if and only if its send failed, and a deadline if and only if its timeout fired |
| DaemonOutcomes.WorkerIsDealt | tinypipe-daemon/src/lib.rs:77-84 | a call's worker is the one at its group's counter, modulo the size, when it chose |
| DaemonRegistry.Registered | tinypipe-daemon/src/lib.rs:149-190 | over every run a group has exactly the workers that joined it and have not left since, and exactly the tools defined and not dropped since are defined |
| DaemonRegistry.DropsOnlyDeserted | tinypipe-daemon/src/lib.rs:170-184 | a disconnect drops a tool only after it once found its group without workers |
| Daemon.NoSenderLost | tinypipe-daemon/src/lib.rs:261-264 | the dropped-sender branch is never taken |
| Daemon.PendingIsCovered | tinypipe-daemon/src/lib.rs:170-254 | a recorded task still pending is in flight at its worker or on the list of a running disconnect of that worker |
| Daemon.DisconnectLeavesNothing | tinypipe-daemon/src/lib.rs:170-202 | when a disconnect returns, nothing that it took is pending, nor ever will be, nor is taken by another disconnect: repeating it is harmless |
| Daemon.TakenNotInFlight | tinypipe-daemon/src/lib.rs:170-202 | what a running disconnect took is in flight at no worker, so no other one can take it |
| Daemon.WorkerGroup.GetNextWorker | tinypipe-daemon/src/lib.rs:77-84 | picks the worker at the counter modulo the group size and advances the counter; none for an empty group |
| Daemon.WorkerGroup.Remove | tinypipe-daemon/src/lib.rs:68-70 | keeps exactly the other workers, in order, and the counter |
| Daemon.RemovesOne | tinypipe-daemon/src/lib.rs:68-70 | a removed worker is gone with all its entries, the others stay as often as before |
| Daemon.RemovesInOrder | tinypipe-daemon/src/lib.rs:68-70 | and in their order |
| Daemon.RoundRobin | tinypipe-daemon/src/lib.rs:77-84 | as many picks in a row as there are entries use every entry exactly once |
| Daemon.PicksRotate | tinypipe-daemon/src/lib.rs:77-84 | those picks are a rotation of the list |
| Env.Get | tinypipe-env/src/lib.rs:97-113 | gives a value if and only if some provider has it at some scope level, under the scope names and the normalized key joined by `_`, no earlier provider has that key, and none has the key of an inner level |
| Env.GetIff | tinypipe-env/src/lib.rs:97-113 | the same of the specification: innermost level first, there the first provider |
| Env.NormalizeIs | tinypipe-env/src/lib.rs:39-46 | a key is normalized by dropping the blanks around, upper case, and `_` for `-`, `.` and blanks |
| Env.ScopedIs | tinypipe-env/src/lib.rs:87-95 | a module's view has one level more, its normalized name |
| Env.NormalizeIdempotent | tinypipe-env/src/lib.rs:39-46 | normalizing a key twice changes nothing more |
| Env.ScopedGet | tinypipe-env/src/lib.rs:87-112 | a scoped view answers from its own level first and otherwise like the view around it |
| Env.ScopingKeepsVariables | tinypipe-env/src/lib.rs:87-112 | no nesting of scopes loses a variable |
| EnvCheck.ValidateEnv | tinypipe-tools/src/registry.rs:77-118 | succeeds if and only if every reachable graph can be loaded and planned; an error tells of a fault that some reachable graph has; on success there is exactly one report for each reachable graph that lacks a mandatory key, with its missing keys and a real call chain from the root as path |
| EnvCheck.ValidateGraphEnv | tinypipe-tools/src/registry.rs:84-118 | one call of the search: what it visits and reports, given what was visited before; it ends because unvisited graphs run out |
| EnvCheck.ComputeMissing | tinypipe-tools/src/registry.rs:97-101 | exactly the mandatory keys without a value, in plan order |
| EnvCheck.MissingAre | tinypipe-tools/src/registry.rs:97-101 | the missing keys are those of mandatory dependencies for which no provider has a value at any level |
| EnvCheck.ChainSteps | tinypipe-tools/src/registry.rs:103-116 | the chain behind a report's path is made of stored graphs that call each other in turn |
| EnvCheck.NamesAt | tinypipe-tools/src/registry.rs:103-116 | and the path has their names |
| EnvCheck.EmptyReportIff | tinypipe-tools/src/registry.rs:77-118 | the result is `Ok` with no report if and only if the root is found and every graph that can be called can be loaded and has a value for each mandatory key |
| EnvCheck.EmptyReportMeansReady | tinypipe-tools/src/registry.rs:77-182 | after an empty report every mandatory key of every graph that can be called has a value, in whatever nested scopes it is run |
| Template.Resolve | tinypipe-env/src/template.rs:13-64 | the loop computes the specification of resolution, with escapes, nested braces and unclosed placeholders |
| Template.FindClosing | tinypipe-env/src/template.rs:66-80 | the brace that closes the current depth |
| Template.ClosingBalances | tinypipe-env/src/template.rs:66-80 | it is the first character behind which as many braces are closed as opened |
| Template.ExtractTemplateKeys | tinypipe-ir/src/env_deps.rs:115-148 | the loop computes the specification of the scan |
| Template.FindSeq | tinypipe-ir/src/env_deps.rs:150-159 | the first closing brace, or pair of braces |
| Template.ScannersReadSegments | tinypipe-env/src/template.rs:13-98 | both scanners read every rendered template back as its segments |
| Template.SetKeysResolve | tinypipe-ir/src/env_deps.rs:115-148 | if every key that the scanner calls mandatory is set, the template resolves, and to the values of its segments |
| Template.SpecGives | tinypipe-env/src/template.rs:82-98 | a placeholder stands for the value that the environment has; without one for nothing, its default, or an error |
| Template.UnclosedIsText | tinypipe-env/src/template.rs:13-64 | without a closing brace and without an escape a text stands for itself, and the scanner finds nothing in it |
| Template.SpecsAgree | tinypipe-env/src/template.rs:82-98 | scanner and resolver agree on one placeholder if and only if a `:?` neither ends one with a default nor stands before its end |
| Template.FindsAgree | tinypipe-ir/src/env_deps.rs:115-148 | for any template: scanner and resolver find the same placeholders, at the same places and with the same keys, if and only if they walk it in step |
| Template.ScannerFindsExtracted | tinypipe-ir/src/env_deps.rs:115-148 | what the scanner finds are its extracted keys |
| Template.FoundKeysResolve | tinypipe-env/src/template.rs:13-98 | any template resolves if every key that the resolver takes for mandatory is set |
| Template.AlignedKeysResolve | tinypipe-env/src/template.rs:13-98 | any template that both walk in step resolves if every key that the scanner calls mandatory is set |
| Template.ResolvesIff | tinypipe-env/src/template.rs:13-98 | any template resolves in any environment if and only if each key that it cannot do without has a value |
| Template.ScanGuarantees | tinypipe-ir/src/env_deps.rs:115-148 | setting the keys that the scanner calls mandatory is enough in every environment if and only if each key that the template cannot do without is among them |
| Template.EscapeIsScanned | tinypipe-ir/src/env_deps.rs:115-148 | an escaped placeholder is text to the resolver and a mandatory key to the scanner |
| EnvDeps.ScanPlanEnvDeps | tinypipe-ir/src/env_deps.rs:38-59 | the loop over the nodes computes the specification of the scan |
| EnvDeps.ScanIsByNode | tinypipe-ir/src/env_deps.rs:38-106 | the scan misses no node and adds nothing of its own |
| EnvDeps.SubgraphTargets | tinypipe-ir/src/env_deps.rs:62-81 | the loop computes the call targets in plan order |
| EnvDeps.TargetsAreCalls | tinypipe-ir/src/env_deps.rs:62-81 | the targets are exactly the names that some node calls as a subgraph |
| EnvDeps.GetIsScanned | tinypipe-ir/src/env_deps.rs:83-106 | an `env.get` with a literal key gives one dependency, optional exactly if it has a default |
| EnvDeps.EnvGetGives | tinypipe-tools/src/tools/env.rs:24-36 | `env.get` gives the value that the environment has, and only without one the default, or an error |
| EnvDeps.ScannedGetSucceeds | tinypipe-tools/src/tools/env.rs:24-36 | if every mandatory key of the scan is set, an `env.get` with a literal key succeeds |
| EnvDeps.ScannedTemplateSucceeds | tinypipe-tools/src/tools/env.rs:48-61 | and an `env.template` with a literal template gives the values of its segments |
| EnvDeps.CheckedGetsSucceed | tinypipe-tools/src/registry.rs:77-182 | after an empty report no `env.get` with a literal key fails, in any graph that can be called, in whatever nested scopes |
| Storage.SqliteStorage.CreateGraph | tinypipe-storage/src/lib.rs:359-378 | the history gains the graph with version 1, or an error for a taken id |
| Storage.SqliteStorage.UpdateGraph | tinypipe-storage/src/lib.rs:379-408 | appends the code as the next version and returns its number; no primary key conflicts |
| Storage.SqliteStorage.Deploy | tinypipe-storage/src/lib.rs:410-431 | fails exactly for a version that does not exist; otherwise makes it the active one |
| Storage.SqliteStorage.Rollback | tinypipe-storage/src/lib.rs:456-531 | fails exactly for a version that does not exist; otherwise appends a copy of its code and plan, restores the head plan if there is one, and moves the active version if deployed |
| Storage.SqliteStorage.MaxVersion | tinypipe-storage/src/lib.rs:472-480 | the largest recorded version |
| Storage.SqliteStorage.SavePlan | tinypipe-storage/src/lib.rs:597-611 | writes the head plan whatever the version, and the version's plan if it exists |
| Storage.SqliteStorage.LoadPlan | tinypipe-storage/src/lib.rs:534-546 | the head plan, with the two errors told apart |
| Storage.SqliteStorage.LoadPlanVersion | tinypipe-storage/src/lib.rs:583-595 | the plan of one version, with the two errors told apart |
| Storage.SqliteStorage.ForkGraph | tinypipe-storage/src/lib.rs:896-907 | a new graph below its parent, with its parent's name |
| Storage.SqliteStorage.GraphLineage | tinypipe-storage/src/lib.rs:948-961 | ends, and gives the graphs from the root of the forks down to the graph |
| Storage.SqliteStorage.ListChildren | tinypipe-storage/src/lib.rs:909-946 | exactly the direct forks, in the order of creation |
| Storage.SqliteStorage.GraphTree | tinypipe-storage/src/lib.rs:963-975 | ends, and gives the tree of forks below the graph |
| Storage.InsertedBook | tinypipe-storage/src/lib.rs:359-378 | the two inserted rows keep the tables versioned and add one graph to the history they record |
| Storage.AppendedBook | tinypipe-storage/src/lib.rs:379-408 | a head row and a version row written together keep the versions exactly 1 to n, the head at n with the code of version n |
| Storage.PlanBook | tinypipe-storage/src/lib.rs:605-609 | writing one version's plan changes that plan and nothing else in the history |
| History.StepSound | tinypipe-storage/src/lib.rs:331-611 | every operation keeps the history sound and only extends it |
| History.RunExtends | tinypipe-storage/src/lib.rs:331-611 | over every run versions are only added, no recorded code changes, no recorded plan is dropped, names and parents stay |
| History.ReachableSound | tinypipe-storage/src/lib.rs:331-611 | in every reachable store each graph has a version, any active version exists, and parents are older than their forks |
| History.VersionsCountChanges | tinypipe-storage/src/lib.rs:379-531 | the number of versions grows by one for each successful update and rollback, and by nothing else |
| History.RollbackRestores | tinypipe-storage/src/lib.rs:456-531 | whatever ran in between, a rollback appends the code that the version had at the start and moves an active version with it |
| History.ActiveIsStable | tinypipe-storage/src/lib.rs:379-431 | between deployments and rollbacks the active version and its code stay, however often the graph is updated |
| History.HeadPlanAfter | tinypipe-storage/src/lib.rs:456-611 | for each operation, exactly when the head plan is afterwards the plan of the newest version |
| History.RollbackCanLeaveAnOldPlan | tinypipe-storage/src/lib.rs:496-503 | a run after which the head row has one version's code and another version's plan |
| History.TreeIsDescendants | tinypipe-storage/src/lib.rs:948-975 | a graph is in the tree of another if and only if that one is in its lineage |
| History.TreeListsOnce | tinypipe-storage/src/lib.rs:963-975 | a tree lists no graph twice |
| History.AncestorsBegin | tinypipe-storage/src/lib.rs:948-961 | a graph is in a lineage if and only if its own lineage begins that one |
| History.LineageIsFixed | tinypipe-storage/src/lib.rs:948-961 | no later operation changes a lineage |
| History.ForkExtendsLineage | tinypipe-storage/src/lib.rs:896-907 | a fork has its parent's lineage and itself, joins the tree of every ancestor, and moves nothing else |
| HistoryOrigins.CodeOrigin | tinypipe-storage/src/lib.rs:331-611 | over every run a version has exactly the code that the operation which made it brought along, or found in the version it rolled back to |
| HistoryOrigins.ActiveOrigin | tinypipe-storage/src/lib.rs:410-531 | over every run the active version is the one that the last deployment, or rollback of the deployed graph, made active |
| HistoryOrigins.PlanOrigin | tinypipe-storage/src/lib.rs:456-611 | over every run the plan of a version is the last one saved for it, or else that of the version it rolled back to, or none |
| HistoryOrigins.GraphOrigin | tinypipe-storage/src/lib.rs:359-907 | a graph has the name and parent that its creation or fork gave it |
| HistoryOrigins.LineageClimbs | tinypipe-storage/src/lib.rs:948-961 | a lineage starts at a graph that is no fork, and each graph in it is the parent of the next |
| HistoryOrigins.ChildrenByBirth | tinypipe-storage/src/lib.rs:909-946 | children are listed in the order in which they were forked |
| PlanCache.CachedPlans.LoadCachedPlan | tinypipe-tools/src/registry.rs:141-170 | with or without the cache the result is the compiled and decoded code of the version asked for; a missing plan is recorded and nothing else in the store changes |
| PlanCache.DisciplineKeeps | tinypipe-storage/src/lib.rs:379-611 | updates, rollbacks and forks keep it so that every recorded plan decodes to what the code of its version compiles to, as long as plans are saved that way |
| PlanCache.DisciplineIff | tinypipe-storage/src/lib.rs:597-611 | and that is what it takes: any other save breaks it |
| PlanCache.NextKeeps | tinypipe-tools/src/registry.rs:141-170 | every step of every lookup and of the store keeps the cache in agreement with the tables |
| PlanCache.LookupsAgree | tinypipe-tools/src/registry.rs:141-170 | in every interleaving a lookup that returned has the plan that the tables hold for the version it had read, however stale; it fails only if that code does not compile to a decodable plan |
| PlanCache.CachedAfterSave | tinypipe-tools/src/registry.rs:142-146 | after a save over a cached version the lookup returns what the tables decode to if and only if the plan saved decodes to what the code compiles to |
| PlanCache.RewrittenPlanIsNotSeen | tinypipe-tools/src/registry.rs:142-146 | a cached version hides a differing plan that was saved over it |
| Executions.PausedHasCheckpoint | tinypipe-server/src/engine.rs:136-216 | in every interleaving of the single writes a paused row lacks a checkpoint only while the call that will write one is between its two writes |
| Executions.NextKeeps | tinypipe-storage/src/lib.rs:642-674 | each step, reading the row, deciding and each write, keeps that, although saving an execution drops the row's checkpoint |
| Executions.OverlapReopens | tinypipe-server/src/engine.rs:230-317 | two overlapping resumptions can pause a row that was completed |
| Executions.FinalRowsStay | tinypipe-storage/src/lib.rs:642-674 | in every interleaving in which no execution has two calls open at once, a completed or failed row never changes again |
| Executions.FinalRowStaysIff | tinypipe-server/src/engine.rs:222-317 | a final row is the same in every continuation, whatever overlaps, if and only if no open call has a write to come that changes it or can still come to one |
| Executions.ExecuteResult | tinypipe-server/src/engine.rs:136-216 | the writes of a run together leave the row with its final status and, if paused, its checkpoint |
| Executions.ResumeResult | tinypipe-server/src/engine.rs:275-317 | the same for resumption by the server and by the scheduler |
| Executions.RunsKeep | tinypipe-server/src/engine.rs:101-317 | with one operation after the other every paused row has a checkpoint between them, and completed and failed rows never change |
| Executions.ExecutionStore.SaveExecution | tinypipe-storage/src/lib.rs:642-674 | replaces the row and drops its checkpoint |
| Executions.ExecutionStore.SaveCheckpoint | tinypipe-storage/src/lib.rs:835-843 | sets the checkpoint of an existing row |
| Executions.ExecutionStore.LoadCheckpoint | tinypipe-storage/src/lib.rs:845-856 | none for an unknown id, the empty blob for a row without a checkpoint |
| Executions.ExecutionStore.ListPaused | tinypipe-storage/src/lib.rs:740-779 | exactly the paused executions, each once |
| Scheduler.ResumedRows | tinypipe-scheduler/src/lib.rs:129-225 | a resumption changes its own row only, and completes it exactly if the executor finished |
| Scheduler.RoundSplits | tinypipe-scheduler/src/lib.rs:73-102 | a round splits its executions into completed, paused again and failed, disjoint and nothing left over, and touches no other row |
| Scheduler.RoundProgress | tinypipe-scheduler/src/lib.rs:73-102 | the rows that are still paused are those paused again or failed; completed ones are counted once |
| Scheduler.RoundCarries | tinypipe-scheduler/src/lib.rs:129-225 | in a round the executor goes on from each row's own checkpoint, and the row and its count are what that came to |
| Scheduler.CheckpointsDecide | tinypipe-scheduler/src/lib.rs:129-225 | executors that agree on the stored checkpoints leave the same table and counts |
| Scheduler.Scheduler.ResumeOne | tinypipe-scheduler/src/lib.rs:129-225 | hands the stored checkpoint to the executor; the row and the verdict for each of its outcomes |
| Scheduler.Scheduler.RunOnce | tinypipe-scheduler/src/lib.rs:73-102 | resumes each row that was paused at the start once, from its own checkpoint, one after the other: the table is the one those resumptions leave, the counts are theirs, and processed = completed + still paused + failed |
| Scheduler.Scheduler.RunLoop | tinypipe-scheduler/src/lib.rs:107-127 | the table is reached by a run of such rounds, each from where the one before ended, and the total is the sum of their counts; every round but the last suspends some row, the last of a run that stops early none, and then exactly what failed in it is still paused; over all rounds no row is completed twice; if nothing is suspended one round is enough |
| Scheduler.RunProgress | tinypipe-scheduler/src/lib.rs:107-127 | what any run of rounds amounts to: its completions are the rows that went from paused to completed, and what is still paused was paused again or failed in the last round |
| Scheduler.ProgressAdds | tinypipe-scheduler/src/lib.rs:107-127 | progress over two rounds is progress, and completions add up |
| Scheduler.RunExecution | tinypipe-server/src/engine.rs:91-219 | the table after a run, with and without audit |
| Scheduler.ResumeExecution | tinypipe-server/src/engine.rs:222-317 | hands the stored checkpoint to the executor; the table for each outcome, with and without audit; refused for rows that are not paused |
| Scheduler.RunScheduler | tinypipe-server/src/engine.rs:320-356 | the server's round: its counts are the sizes of the three kinds, and only with an audit does a row change |

## Left out

- Source text: parsing, locations and messages of errors, `format_expr` and constants; a program is an AST whose operators, displays and f-strings share one constructor, and a node keeps the names of its arguments, not their texts.
- Identifiers: node, graph, task and execution ids are numbers; they are compared, hashed and copied only. Fresh UUIDs are parameters; a taken id is an error where a table has a primary key.
- Counters: `next_id` and `next_idx` do not wrap around, and indices stay below the `u32` sentinel; `PlanView` states the bound it needs.
- META blocks, plan metadata, `id_map`, edge mappings, inferred types and tool dependencies of the compiled plan.
- The sanitizer, the type checker, the optimizer and the code generator: what runs between validation and storage is the unknown function `compile` of `PlanCache`.
- The state of a transform that failed: after an error the engine is dropped, so nothing is said about its fields.
- Validator.Validate: says which errors are reported, not in which order or how often; leaves out check 11 (subgraph self-cycles and nesting depth), which needs argument texts, and the length comparison after the sort, which cannot fail; check 10 repeats check 7. `verify_cfg_flattening` is not modelled.
- Compiled.FromExecutionPlan: leaves out the id map, edge mappings, metadata, inferred types and argument values.
- Compiled.NodeRoundTrip: leaves out inferred types and argument values.
- Compiled.EdgeRoundTrip: leaves out the edge mapping.
- FlatBuffers: byte layout and generated bindings; `Compiled` models records with defaults.
- PlanView.Collapse: a box has its group's title and size, not the numbered label made of them.
- Labels, shapes and the Mermaid and DOT output; which CALC nodes are simple enough to hide is a text heuristic, so `hidden` is any set, and any set of CALC nodes where termination is concerned.
- Context: `all_variables`, size estimates and nested scopes of `Scope`; floating-point numbers are reals, so rounding and NaN are not modelled.
- Daemon: gRPC, authentication, keepalive and clocks; a timeout may fire at any time, a send may fail at any time, and cancelled invocations are not modelled.
- Env.NormalizeIdempotent: keys are ASCII; Unicode upper-casing and white space are not modelled.
- Env: listing, secrets and the single providers; a provider is a map.
- EnvCheck.ValidateEnv: takes the plans as given for one check (name and id lookups agree, plans do not change meanwhile); self-healing is modelled in `PlanCache`.
- EnvDeps: reading JSON literals; an argument is a string literal or something else, and a dispatched call is assumed to pass literals as they stand. `env.list` is not modelled.
- Storage: SQL failures in the middle of a method, migrations, search, profiles and time stamps; one method is one step, except in `Executions`. Rows are listed in the order of insertion, which is the order of `created_at` as long as the clock does not go back.
- Storage.SqliteStorage.GraphTree: reads the tables at one moment; a fork made while the source reads them may or may not be listed.
- Graph lookup by name before id (`resolve_graph`): a lookup starts from a row that was read.
- PlanCache.LookupsAgree: assumes that whoever saves a plan saves one that decodes to what the code of that version compiles to, as all callers in the repository do; `PlanCache.CachedAfterSave` says exactly what happens without it.
- Executions: audit steps and time stamps; the executor and the contents of checkpoints are an unknown function, which also stands for unreadable checkpoints, missing plans and the environment check before a resumption.
- The virtual machine, server routes and the response cache, command line, reports, metrics and LLM integration.
