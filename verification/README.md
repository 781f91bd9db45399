# Fault-tree editing: verified model

This project models, in Dafny, how the fault-tree backend lets an agent edit a stored fault tree, and
proves what the edits, their commits and the surrounding protocols keep. It has five parts.

1. **The edit engine** (`FaultTree`, `Traversal`, `TreeState`, `Engine`, `Subtree`, `OperationRows`). A working copy of node
   rows, edge rows and a position index is edited in place by `update_node`, `update_gate`, `add_node`,
   `add_gate`, `delete_node` and `move_node`; three-colour depth-first search finds cycles, two
   breadth-first searches list descendants and bounded distances. Every method is proved equal to an
   outcome function in `Edits` (new graph, fresh identifiers used, patch, counts or error, in the order
   in which the code checks); `OperationRows` says for each operation exactly what it accepts and what it
   does to single rows, the patch and the counts, in terms of the request alone. The strict variant of an operation and the permissive one that batches in
   repair mode use are one method with a `Mode`.
2. **What the edits mean** (`Reachability`, `Rewiring`, `GraphEffects`, `Restructuring`, `Constraints`,
   `Soundness`, `PatchReplay`). Theorems about reachability and acyclicity of graphs of any size, the two
   constraint gates against plain graph rules, an invariant of all operations, and the patch log.
3. **Batches, plans, commits and rounds** (`Planning`, `Executor`, `CommittedRuns`, `ToolRounds`). A call is
   checked, planned on a copy, gated, and written under a revision test; an agent session threads a
   snapshot through its calls; a round of mutation calls is fused into batches.
4. **Interleaved protocols** (`StoreProtocol`, `StoreRuns`, `GraphService`, `Callbacks`, `Dispatching`, `DispatchRuns`, `TaskDispatcher`).
   State machines over atomic steps for readers and writers of the stored graph behind stale caches, for
   worker callbacks on a task, and for the per-project dispatch lock. The service methods are classes
   whose uninterrupted calls are proved to be runs of those machines.
5. **The agent's loop guard and context chunking** (`LoopGuard`, `Chunking`).

Conventions: an `Id` is a trimmed, case-folded identifier, `NoId` the blank one; its serial number gives
the order in which identifiers sort. Fresh identifiers come from a supply that counts up. A node kind or
gate type outside the known ones is `OtherKind` or `None`. Absent and present request fields are options.
Errors are values. What the surroundings decide (a failing write, a cache that keeps or loses an entry, the
revision a possibly stale lookup reports) is a parameter, so each theorem holds however it turns out.

Five promises hold only under a condition. Each condition is proved to be exact, and each failure is shown
at a concrete input:

- `delete_node` that keeps the children leaves no dangling edge exactly when the deleted node is not its own
  parent with a further neighbour (`DeleteDanglesIff`): otherwise the parents-times-children splice joins
  the deleted identifier again, as in `DeleteLeavesDangling`. The commit gates catch that graph.
- `ApplyPatchSet` runs the operations of a plan strictly, also those of a plan made in repair mode. Such a plan
  applies exactly when each member meets the guards that only the strict variants have, on the graph the
  members before it lead to (`StrictRunIff`, `RepairPlanApplies`, `RepairPlanFails`): add_node below a gate;
  add_gate NOT or with two distinct children; delete_node with its children, or without any, or below some
  parent; move_node of a gate or below a gate. `RepairPlanRefused` is a plan that does not.
- Fusing does not look at the length: a segment that would succeed call by call succeeds as one batch exactly
  when it has at most 50 calls (`FusedSucceedsIff`); `LongSegmentFails` has 51.
- An alternation of two different calls is stopped by the loop guard exactly when the two are not both reads
  and not both validations (`AlternationIsStoppedIff`; `TwoReadsGoOn` has two reads). Gate types toggled with other arguments that always
  differ are only ever warned about under soft warnings (`GateToggleIsRefusedIff`, `DifferentCallsGoOn`).
- A task on the worker stream keeps its project's lock until a terminal callback is accepted, that is, answered
  as done, or until a completion that passes all guards fails on one of its two writes
  (`LosesLockUnansweredIff`): the code gives up the lock then too. `BrokenCompletionFreesTheProject` ends with
  two tasks of one project on the worker stream. Such a broken task counts as over below.

## Model

| member | source | states |
|---|---|---|
| `Traversal.BuildAdjacency` | internal/graph_ops/executor.go:1981-1989 | the adjacency lists hold exactly the edges with two non-blank ends |
| `Traversal.CycleSearch.Visit` | internal/graph_ops/executor.go:1995-2013 | colours a white node and all it reaches black and reports a cycle only when one exists; terminates because white nodes run out |
| `Traversal.CycleSearch.Follow` | internal/graph_ops/executor.go:2001-2010 | one arc from a grey node: a grey end is a cycle, a white end is explored, a black end is passed over |
| `Traversal.HasDirectedCycle` | internal/graph_ops/executor.go:1980-2024 | true exactly when the edge relation has a non-empty closed walk, whatever the order of start nodes |
| `Traversal.CollectDescendants` | internal/graph_ops/executor.go:2226-2258 | lists exactly the identifiers reachable from the root, other than the root, each once, on any graph |
| `Traversal.DescendantsExact` | internal/graph_ops/executor.go:2226-2258 | a descendant is a reachable identifier other than the root |
| `Traversal.SubtreeDepths` | internal/graph_ops/executor.go:1380-1411 | the visited map holds exactly the identifiers at shortest-path distance at most the bound, each with that distance; terminates on cyclic graphs |
| `Traversal.DepthsAreDistances` | internal/graph_ops/executor.go:1395-1411 | recorded walk lengths that are closed under one more step below the bound are the shortest distances |
| `Subtree.ApplyGetSubtree` | internal/graph_ops/executor.go:1364-1458 | a missing root is an error; otherwise exactly the nodes within the bound, ascending, with their distances, and exactly the edges with both ends within it, in row order; without a positive depth the bound is three |
| `Subtree.ReportsDistances` | internal/graph_ops/executor.go:1413-1428 | a node is in the answer exactly when it lies within the bound, with its distance from the root |
| `Subtree.PartIsSubtree` | internal/graph_ops/executor.go:1413-1446 | the selected rows are exactly the subtree, nodes and edges, stated by distance from the root |
| `Sorting.SortedSetKeys` | internal/graph_ops/executor.go:1961-1971 | the ascending list of the set's non-blank members |
| `Sorting.AscendingUnique` | internal/graph_ops/executor.go:1961-1971 | sorting gives one result whatever the order in which the set is read |
| `TreeState.FaultTreeState.constructor` | internal/graph_ops/executor.go:2078-2086 | a fresh state has the given rows and an index that agrees with searching them |
| `TreeState.FaultTreeState.RebuildIndex` | internal/graph_ops/executor.go:2088-2093 | afterwards the index holds for each identifier the last row that carries it |
| `TreeState.FaultTreeState.GetNode` | internal/graph_ops/executor.go:2095-2101 | the indexed lookup finds what a linear search of the rows finds |
| `TreeState.FaultTreeState.AddNode` | internal/graph_ops/executor.go:2103-2106 | appends one row and keeps the index in agreement |
| `TreeState.FaultTreeState.AddEdge` | internal/graph_ops/executor.go:2108-2116 | appends exactly when no edge joins the two ends in that direction, and says so |
| `TreeState.FaultTreeState.FindEdgeId` | internal/graph_ops/executor.go:2118-2127 | finds an edge identifier exactly when the two ends are joined |
| `TreeState.FaultTreeState.RemoveEdgesByFromTo` | internal/graph_ops/executor.go:2129-2146 | removes exactly the edges from one node into a set, in order, and lists their identifiers |
| `TreeState.FaultTreeState.RemoveNodes` | internal/graph_ops/executor.go:2148-2177 | removes exactly the named nodes and all edges touching them, lists both, and keeps the index in agreement |
| `TreeState.FaultTreeState.RemoveIncomingEdges` | internal/graph_ops/executor.go:2179-2192 | removes exactly the edges into one node and lists them |
| `TreeState.FaultTreeState.ParentIdsOf` | internal/graph_ops/executor.go:2194-2208 | the distinct non-blank parents, ascending |
| `TreeState.FaultTreeState.ChildIdsOf` | internal/graph_ops/executor.go:2210-2224 | the distinct non-blank children, ascending |
| `Engine.ApplyUpdateNode` | internal/graph_ops/executor.go:450-512 | new rows, patch and errors of update_node |
| `Engine.ApplyUpdateGate` | internal/graph_ops/executor.go:514-549 | new rows, patch and errors of update_gate; an equal gate type changes nothing |
| `Engine.ApplyAddNode` | internal/graph_ops/executor.go:551-637 | new rows, patch, errors and identifiers drawn by add_node, in both variants (permissive: lines 1078-1158) |
| `Engine.ApplyAddGate` | internal/graph_ops/executor.go:639-757 | refusals in request order, then the rewired graph, patch and counts of add_gate, in both variants (permissive: lines 1160-1278) |
| `Engine.ApplyDeleteNode` | internal/graph_ops/executor.go:759-821 | which rows go, which splice edges come, patch and errors of delete_node, in both variants (permissive: lines 823-881) |
| `Engine.ApplyMoveNode` | internal/graph_ops/executor.go:883-948 | refusals including a new parent below the node, then the reattached graph and patch of move_node, in both variants (permissive: lines 950-1013) |
| `Engine.ApplyRead` | internal/graph_ops/executor.go:1280-1567 | the read and validate tools never change the graph and fail only on a missing node |
| `Engine.ApplyOperation` | internal/graph_ops/executor.go:404-448 | dispatch of one operation in either variant; other tools are unknown |
| `OperationRows.FailureKeepsGraph` | internal/graph_ops/executor.go:450-1278 | a failing operation leaves the graph alone |
| `OperationRows.UpdateNodeAcceptedIff` | internal/graph_ops/executor.go:461-474 | update_node succeeds exactly on an existing node without an empty name |
| `OperationRows.UpdateNodeRows` | internal/graph_ops/executor.go:469-499 | given fields are set, an empty text clears, absent fields and all other rows stay |
| `OperationRows.UpdateNodePatch` | internal/graph_ops/executor.go:466-512 | the patch names the node and exactly the given fields; without one nothing is counted |
| `OperationRows.UpdateGateAcceptedIff` | internal/graph_ops/executor.go:514-534 | update_gate succeeds exactly for a known gate type on an existing gate |
| `OperationRows.UpdateGateRows` | internal/graph_ops/executor.go:535-549 | only the gate type of that row changes, and the patch says so unless it was that type already |
| `OperationRows.AddNodeAcceptedIff` | internal/graph_ops/executor.go:551-619 | exactly which nodes may be added, below which parents, in both variants |
| `OperationRows.AddNodeRows` | internal/graph_ops/executor.go:580-634 | one new row with the requested kind, name and description, and one edge to it from the parent; all other rows stay |
| `OperationRows.AddNodePatch` | internal/graph_ops/executor.go:621-637 | the patch carries exactly that row and that edge, and counts them |
| `OperationRows.AddGateAcceptedIff` | internal/graph_ops/executor.go:660-712 | exactly which gates may be inserted above which children, in both variants |
| `OperationRows.AddGateRows` | internal/graph_ops/executor.go:714-726 | one new row: a gate of the requested type, named after it; all old rows stay |
| `OperationRows.AddGatePatch` | internal/graph_ops/executor.go:728-748 | the patch carries exactly that gate and counts its edges |
| `OperationRows.AddGateEdges` | internal/graph_ops/executor.go:729-748 | of the old edges exactly those from the parent to a requested child go; new ones are fresh and join parent and gate or gate and child |
| `OperationRows.DeleteAcceptedIff` | internal/graph_ops/executor.go:768-789 | exactly which nodes may be deleted, in both variants |
| `OperationRows.DeleteRows` | internal/graph_ops/executor.go:790-821 | edges that touch no deleted node stay as they are, and the counts are those of the patch |
| `OperationRows.MoveAcceptedIff` | internal/graph_ops/executor.go:893-922 | exactly which moves are accepted, in both variants: never below the node itself |
| `OperationRows.MoveRows` | internal/graph_ops/executor.go:924-948 | no node changes; the patch adds exactly the edge from the new parent and counts one node |
| `OperationRows.ReadAcceptedIff` | internal/graph_ops/executor.go:1280-1567 | read and validate tools change nothing and fail exactly on a node that is not there |
| `OperationRows.RunCounts` | internal/graph_ops/executor.go:1030-1057 | the counts of a batch are those of its patch plus one node for every move |
| `OperationRows.ParametersAcceptedIff` | internal/graph_ops/validator.go:22-148 | which single calls the parameter check lets through |
| `OperationRows.BatchRefusedIff` | internal/graph_ops/validator.go:109-132 | a batch is let through exactly with 1 to 50 members, none of them a batch or refused itself |
| `Rewiring.SpliceKeepsReach` | internal/graph_ops/executor.go:777-812 | joining every parent of a node to every child and dropping the node keeps who reaches whom among the others |
| `Rewiring.CutOffKeepsReach` | internal/graph_ops/executor.go:777-812 | dropping a set that is closed under successors keeps who reaches whom among the others |
| `Restructuring.DeletedArcs` | internal/graph_ops/executor.go:777-812 | the relation after delete_node is exactly the spliced or the cut-off relation |
| `Restructuring.DeleteKeepsReachability` | internal/graph_ops/executor.go:777-812 | among survivors reflexive reachability is the same before and after delete_node, with children kept or removed |
| `Restructuring.DeletedNodes` | internal/graph_ops/executor.go:2148-2161 | exactly the doomed nodes disappear |
| `Restructuring.DeleteDanglesIff` | internal/graph_ops/executor.go:777-812 | no edge dangles after a delete exactly when the children go too or the node does not splice itself |
| `Restructuring.DeleteLeavesDangling` | internal/graph_ops/executor.go:788-803 | a concrete graph on which a delete that keeps the children leaves an edge dangling |
| `Restructuring.GateIsTransparent` | internal/graph_ops/executor.go:677-748 | reachability among old nodes is unchanged, acyclicity is kept, the gate's only parent is the given one, its children are exactly the requested ones, and no direct edge to them remains |
| `Restructuring.GateChecked` | internal/graph_ops/executor.go:677-721 | a successful add_gate had existing children below the parent, none of them a top event or the parent itself |
| `Restructuring.MoveIsLocal` | internal/graph_ops/executor.go:917-934 | a successful move keeps the graph acyclic, leaves one incoming edge, from the new parent, leaves edges into other nodes alone and keeps the node's descendants |
| `Rewiring.MoveAcyclicIff` | internal/graph_ops/executor.go:917-922 | the descendant check refuses exactly the moves that would close a cycle |
| `Constraints.EvaluateIssues` | internal/graph_ops/executor.go:1638-1728 | reports exactly the warranted issues of edges, nodes and the whole graph |
| `Constraints.IssueReportedIff` | internal/graph_ops/executor.go:1638-1728 | for each code, exactly which edge or node makes the checker report it, and under which node |
| `Constraints.EnforceStrict` | internal/graph_ops/executor.go:1569-1596 | passes exactly when no warranted issue blocks |
| `Constraints.EnforcePermissive` | internal/graph_ops/executor.go:1598-1636 | passes exactly when no warranted issue has a fatal code |
| `Constraints.StrictGateExact` | internal/graph_ops/executor.go:1638-1728 | the strict gate accepts exactly the graphs with no bad edge end, one top event of in-degree 0, leaf basic events, no gate below a gate, valid gate types, two or more children on AND and OR, at most one on NOT, and no cycle |
| `Constraints.PermissiveGateExact` | internal/graph_ops/executor.go:1598-1636 | the permissive gate accepts exactly the graphs with no bad edge end, one top event of in-degree 0 and no cycle |
| `Constraints.StrictImpliesPermissive` | internal/graph_ops/executor.go:1598-1619 | what the strict gate accepts the permissive one accepts |
| `Soundness.OperationKeepsSound` | internal/graph_ops/executor.go:404-448 | fatal-free with leaf basic events is kept by every successful operation, strict or permissive |
| `Soundness.AddNodeKeepsSound` | internal/graph_ops/executor.go:551-637 | the invariant for add_node |
| `Soundness.AddGateKeepsSound` | internal/graph_ops/executor.go:639-757 | the invariant for add_gate |
| `Soundness.DeleteKeepsSound` | internal/graph_ops/executor.go:759-881 | the invariant for delete_node |
| `Soundness.MoveKeepsSound` | internal/graph_ops/executor.go:883-1013 | the invariant for move_node |
| `Soundness.RunKeepsSound` | internal/graph_ops/executor.go:1030-1057 | the invariant over any run of operations |
| `CommittedRuns.RepairGateNeverRejects` | internal/graph_ops/executor.go:1059-1068 | from a sound graph a batch succeeds exactly when its members do, and the result is sound: the permissive gate never rejects it |
| `PatchReplay.OperationReplays` | internal/graph_ops/executor.go:507-546 | one operation's patch, replayed as upserts then deletes, gives its graph |
| `PatchReplay.ReplayMerged` | internal/graph_ops/executor.go:2034-2040 | replaying a merged patch is replaying its parts one after the other, when nothing deleted returns |
| `PatchReplay.RunReplays` | internal/graph_ops/executor.go:1030-1057 | the merged patch of any run replays to exactly its final nodes and edges, rows created and removed on the way included |
| `PatchReplay.OperationKeepsKeys` | internal/graph_ops/executor.go:404-448 | row identifiers stay unique and drawn from the supply |
| `CommittedRuns.BatchReplays` | internal/graph_ops/executor.go:1030-1076 | the patch a planned batch reports replays to the graph it would commit |
| `Executor.CheckParameters` | internal/graph_ops/validator.go:22-148 | which requests are refused before anything is applied: missing fields, bad values, empty, oversized or nested batches |
| `Executor.RunMembers` | internal/graph_ops/executor.go:1034-1057 | members in order until one fails, with merged patch and counts |
| `Executor.ApplyBatchOperations` | internal/graph_ops/executor.go:1015-1076 | members in order until one fails, merged patch and counts, and the permissive gate in repair mode |
| `Executor.PlanFaultTreeOperation` | internal/graph_ops/executor.go:158-198 | a plan carries the expanded operations, the result with its counts and the repair flag |
| `Executor.PersistWithExpectedRevision` | internal/graph_ops/executor.go:327-402 | writes graph, counts and revision plus one exactly when the revision still matches |
| `Executor.ApplyPlannedPatchSet` | internal/graph_ops/executor.go:253-320 | only plans with changes are gated and written; any failure leaves the store alone |
| `Executor.RuntimeSnapshot.Dispatch` | internal/agent/engine.go:2014-2027 | one call against the session's snapshot, which moves on only when the call succeeds |
| `Executor.ExecuteStored` | internal/graph_ops/executor.go:92-119 | one call on the stored graph, committed without an expected revision |
| `Executor.ApplyPatchSetStored` | internal/graph_ops/executor.go:200-251 | every operation of a plan planned again on the running state, merged, gated and written once |
| `CommittedRuns.CallEffect` | internal/graph_ops/executor.go:121-156 | a commit raises the revision by one and stores the graph its gate accepted, which becomes the snapshot; quiet and failed calls, even failing mid-batch, change neither store nor snapshot |
| `CommittedRuns.CallSucceedsIff` | internal/graph_ops/executor.go:121-156 | exactly when a call succeeds, with its operation's own patch and counts; and which error it answers when parameters, operation or gate refuse |
| `CommittedRuns.CallReplays` | internal/graph_ops/executor.go:121-156 | the patch a successful call answers with replays the session's old snapshot to its new one |
| `CommittedRuns.StoredCallEffect` | internal/graph_ops/executor.go:92-119 | Execute: a commit raises the revision by one and stores the edited graph its gate accepts; any other answer leaves the store alone |
| `CommittedRuns.PatchSetEffect` | internal/graph_ops/executor.go:200-251 | the same for ApplyPatchSet, with the gate its repair flags select |
| `CommittedRuns.RunsCommitGatedGraphs` | internal/graph_ops/executor.go:290-319 | over any calls of any sessions, from any stored graph, the revision counts the commits, after a commit the stored graph passes its gate, and without one the store is untouched |
| `CommittedRuns.RunsKeepGate` | internal/graph_ops/executor.go:290-319 | a stored graph that passes its gate goes on passing it |
| `CommittedRuns.OtherSnapshotsKept` | internal/agent/engine.go:2023-2027 | a call never touches another session's snapshot |
| `CommittedRuns.PlanCounts` | internal/graph_ops/executor.go:1856-1870 | a plan without changes left the graph alone; with changes its counts are the operation's own |
| `CommittedRuns.StrictIsPermissive` | internal/graph_ops/executor.go:435-448 | what the strict variant allows the permissive one does identically |
| `CommittedRuns.PlanAllIsRun` | internal/graph_ops/executor.go:227-244 | planning checked operations one by one is running them strictly |
| `CommittedRuns.PlanThenApply` | internal/graph_ops/executor.go:200-251 | applying the operations of a plan, of a single call or of a batch not in repair mode, gives the same store, patch, counts and answer as executing the call |
| `CommittedRuns.StrictlyAllowedIff` | internal/graph_ops/executor.go:404-448 | what the permissive variant of an operation does, the strict one does exactly when the strict-only guards are met |
| `CommittedRuns.StrictRunIff` | internal/graph_ops/executor.go:1034-1057 | a run that succeeds in repair mode succeeds strictly exactly when each member meets the strict-only guards on the graph reached before it |
| `CommittedRuns.RepairPlanApplies` | internal/graph_ops/executor.go:200-251 | a repair plan whose members meet the strict-only guards applies with the same result as executing the batch |
| `CommittedRuns.RepairPlanFails` | internal/graph_ops/executor.go:200-251 | a repair plan with a member that does not meet them fails with that member's error and stores nothing |
| `CommittedRuns.RepairPlanRefused` | internal/graph_ops/executor.go:218-231 | a concrete repair plan that ApplyPatchSet refuses |
| `ToolRounds.MergeMutationSegment` | internal/agent/engine.go:1232-1270 | a segment becomes one call exactly when it has two or more calls that all parse: a strict batch of exactly its operations, in order, under the first identifier or a new one |
| `ToolRounds.MergeRoundMutationCalls` | internal/agent/engine.go:1190-1219 | the returned calls are the pieces of the round in order, each kept as it was or one batch of exactly its operations |
| `ToolRounds.FusingLosesNothing` | internal/agent/engine.go:1190-1219 | the pieces joined are the original calls; a piece of one call, an original batch included, stays exactly that call; a longer piece is a run of mutations in one strict batch with the same operations in the same order |
| `ToolRounds.MaximalRunsAreFused` | internal/agent/engine.go:1195-1216 | every maximal run of two or more mutations that parse becomes one such batch, any other maximal run stays, between what precedes and what follows it |
| `ToolRounds.MergeableAreTheMutations` | internal/agent/engine.go:1221-1230 | the fusible operations are exactly those that may change the graph |
| `ToolRounds.PieceFromAlike` | internal/agent/engine.go:1232-1270 | the one call a piece becomes succeeds where its calls succeed one by one, with the same graphs and supply |
| `ToolRounds.RoundPreservesMeaning` | internal/agent/engine.go:1190-1270 | if the calls of a whole round succeed one by one and no run is longer than 50, the calls that merging returns succeed too and leave the same graphs and supply |
| `ToolRounds.FusingPreservesMeaning` | internal/agent/engine.go:1190-1270 | if the calls of a segment of at most 50 would succeed one by one, the fused batch succeeds with the same final graph and the same fresh identifiers, and commits at most once |
| `ToolRounds.FusedSucceedsIff` | internal/agent/engine.go:1232-1270 | such a segment succeeds as one batch exactly when it has at most 50 calls |
| `ToolRounds.LongSegmentFails` | internal/graph_ops/validator.go:114-116 | 51 concrete calls that succeed one by one and fail once fused |
| `StoreRuns.RunKeepsCoherent` | internal/service/fault_tree.go:58-163 | in every interleaving each cached, read or handed version is not newer than the store and exact when it claims to be current |
| `StoreRuns.SuccessfulWriteSawTheLatest` | internal/service/fault_tree.go:112-163 | when a write at a handed version succeeds, that version is exactly what was committed at its revision and is still the stored graph |
| `StoreRuns.HistoryIsAChain` | internal/graph_ops/executor.go:344-401 | every revision written from a handed version is an edit of the revision before it |
| `StoreRuns.CommittedIsPermanent` | internal/repository/project.go:152-174 | what was committed at a revision never changes and the revision never falls |
| `StoreRuns.TornVersionNeverWrites` | internal/repository/graph.go:18-29 | a version that differs from what was committed at its revision can never be the base of a successful write |
| `StoreRuns.TornReadHappens` | internal/service/fault_tree.go:76-96 | such versions do get handed out |
| `StoreRuns.WriteTakesEffect` | internal/service/fault_tree.go:117-147 | a write at the current revision stores its result under the next one, any other write does nothing |
| `StoreRuns.BlindWriteTakesEffect` | internal/graph_ops/executor.go:344-376 | the same for a write at a revision from anywhere |
| `StoreRuns.QuietReadIsCurrent` | internal/service/fault_tree.go:58-96 | a read past the caches while nobody writes hands out the stored graph and revision and fills the caches |
| `StoreRuns.CachedReadIsCached` | internal/service/fault_tree.go:67-75 | a read that finds both cached hands out the cached graph under the cached revision |
| `GraphService.FaultTreeService.FindByID` | internal/repository/project.go:44-71 | the cached project when there is one, else the row, cached on the way |
| `GraphService.FaultTreeService.GetFaultTreeGraph` | internal/repository/graph.go:18-29 | nodes and edges by two separate reads |
| `GraphService.FaultTreeService.GetGraph` | internal/service/fault_tree.go:58-96 | an uninterrupted call is a run of the protocol and hands out the version it returns |
| `GraphService.FaultTreeService.Transaction` | internal/repository/project.go:152-174 | rows and revision change together exactly when the revision matches; the project's cache entry goes inside |
| `GraphService.FaultTreeService.SaveGraph` | internal/service/fault_tree.go:112-163 | outcome and events of a save, dropping the cached graph last |
| `GraphService.FaultTreeService.PersistWithExpectedRevision` | internal/graph_ops/executor.go:327-402 | outcome and events of the executor's write, with and without an expected revision |
| `GraphService.FaultTreeService.CommitSnapshot` | internal/graph_ops/executor.go:290-317 | the same, then the cached graph is dropped |
| `Callbacks.CallbackHandler.HandleTaskCallback` | internal/service/ai_task.go:922-1120 | the row, seen keys, lock, stream entries and answer after one callback, all guards in order |
| `Callbacks.CallbackHandler.ClearTaskStreamEntries` | internal/service/ai_task.go:664-709 | a task's entries are deleted from the producer and the worker stream, as far as they are tracked and deletable |
| `Callbacks.CallbackHandler.ReleaseProjectLock` | internal/service/ai_task_dispatcher.go:323-336 | only the holder's own lock is removed |
| `Callbacks.CallbackHandler.TouchProjectLock` | internal/service/ai_task_dispatcher.go:305-321 | a free lock is taken, another task's lock is left alone |
| `Callbacks.AcceptedCallbackSetsRow` | internal/service/ai_task.go:975-1095 | an acceptable callback whose writes succeed is answered as done and leaves its own status, its clamped progress (100 when completed) and its attempt (the current one when absent or completed) |
| `Callbacks.AcceptedCallbackSetsRest` | internal/service/ai_task.go:1000-1099 | progress takes a free lock; a terminal status gives up the own lock and the deletable stream entries |
| `Callbacks.OtherCallbackKeepsRow` | internal/service/ai_task.go:928-1055 | every other callback leaves the row alone, except that a completion whose graph cannot be stored makes it failed |
| `Callbacks.UnacceptableCallbackIsIgnored` | internal/service/ai_task.go:928-992 | a callback that is not acceptable changes nothing but the seen keys |
| `Callbacks.UnacceptableCallbackAnswer` | internal/service/ai_task.go:928-992 | how each such callback is answered |
| `Callbacks.UnwrittenCallback` | internal/service/ai_task.go:1000-1098 | what an acceptable callback leaves behind when one of its writes fails |
| `Callbacks.RepeatedCompletion` | internal/service/ai_task.go:960-966 | a repeated completion gives up lock and entries once more and changes nothing else |
| `Callbacks.CallbackNeverFallsBack` | internal/service/ai_task.go:960-992 | one callback never lowers (attempt, progress) of a task that stays non-terminal, and a terminal row changes only from failed to dead |
| `Callbacks.CallbackOrder` | internal/service/ai_task.go:960-992 | the same over any callback sequence |
| `Callbacks.CallbackOrderBetween` | internal/service/ai_task.go:960-992 | the same between any two moments of a sequence |
| `Callbacks.RepeatsDoNotCount` | internal/service/ai_task.go:928-937 | the outcome is that of the sequence with only the first callback of each event key |
| `Callbacks.FailedKeyIsSpent` | internal/service/ai_task.go:928-937 | a keyed callback that failed is answered as done, without effect, when it is sent again |
| `Callbacks.LosesLockUnansweredIff` | internal/service/ai_task.go:1030-1064 | a callback takes a task's own lock away without being answered as done exactly when it completes the task and one of the two writes fails |
| `DispatchRuns.NextKeepsExclusive` | internal/service/ai_task_dispatcher.go:157-187 | every step of dispatchers, callbacks and queues keeps the lock invariant |
| `DispatchRuns.OneRunningTaskPerProject` | internal/service/ai_task_dispatcher.go:157-187 | in every reachable state a task on the worker stream or taken from it, with neither an accepted terminal callback nor a broken completion, holds its project's lock, so a project has at most one |
| `DispatchRuns.BrokenCompletionFreesTheProject` | internal/service/ai_task.go:1038-1055 | a run in which a completion cannot store its graph and a second task of the project reaches the workers |
| `DispatchRuns.CallbackLeaves` | internal/service/ai_task.go:1000-1098 | a callback takes only a free lock and gives up only its own, with a terminal outcome |
| `DispatchRuns.CallbackClears` | internal/service/ai_task.go:960-1099 | a callback deletes stream entries only of a task it concludes, and adds none |
| `DispatchRuns.NoTaskGetsLost` | internal/service/ai_task_dispatcher.go:130-155 | unless a submission, a release of a delayed message or the last attempt to put a message back fails, every submitted task is in the stream, in the delayed set, in a dispatcher's hands, on the worker stream, taken by a worker, or over |
| `Dispatching.CallBackIsHandled` | internal/service/ai_task.go:922-1120 | a callback handled on the whole system does to its task's row, keys, lock and entries what handling it does |
| `Dispatching.CallBackTouchesOneTask` | internal/service/ai_task.go:922-1120 | and nothing to any other task or project |
| `Dispatching.SubmitLeaves` | internal/service/ai_task.go:772-798 | a new task is pending with one message on the producer stream, or failed with none |
| `TaskDispatcher.MessageLeaves` | internal/service/ai_task_dispatcher.go:130-187 | what one uninterrupted message leaves: on the worker stream with the lock held, or put back once if a write there succeeds; the row's status and progress; nothing else |
| `TaskDispatcher.ProducerService.TryAcquireProjectLock` | internal/service/ai_task_dispatcher.go:297-303 | inserts the lock when absent and answers accordingly |
| `TaskDispatcher.ProducerService.ReleaseProjectLock` | internal/service/ai_task_dispatcher.go:323-336 | removes the lock only when the task holds it |
| `TaskDispatcher.ProducerService.RequeueDelayedProducerPayload` | internal/service/ai_task_dispatcher.go:256-284 | back to the delayed set, or to the stream without a delay |
| `TaskDispatcher.ProducerService.DispatchFaultTreePayload` | internal/service/ai_task_dispatcher.go:157-187 | the steps taken, in order, and whether an error is reported |
| `TaskDispatcher.ProducerService.HandleProducerMessage` | internal/service/ai_task_dispatcher.go:130-155 | one copy leaves the producer stream; with a free project and a successful write the task is added to the worker stream and holds the lock, otherwise one copy goes back if a write there succeeds; a run of the protocol that ends idle |
| `TaskDispatcher.ProducerService.ReleaseDelayedProducerTasks` | internal/service/ai_task_dispatcher.go:216-254 | due messages move to the stream one by one; ones already removed are skipped |
| `LoopGuard.SafetyController.BeginRound` | internal/agent/safety.go:64-80 | a new round clears the call counts, the same round does not, other sessions are untouched |
| `LoopGuard.SafetyController.CheckToolCallWithWarning` | internal/agent/safety.go:98-198 | answer and memory after one check, all rules in order, other sessions untouched |
| `LoopGuard.SafetyController.JudgeHistory` | internal/agent/safety.go:144-187 | soft warnings first, then the hard patterns with a token each |
| `LoopGuard.SafetyController.ConsumeLoopWarningToken` | internal/agent/safety.go:318-330 | counts every request and grants the first two per key |
| `LoopGuard.SafetyController.RecordMutation` | internal/agent/safety.go:218-235 | adds to the session's node mutations unless the limit would be passed |
| `LoopGuard.SafetyController.ClearSession` | internal/agent/safety.go:237-249 | forgets one session only |
| `LoopGuard.ScreenedIff` | internal/agent/safety.go:99-130 | exactly which checks the budgets stop and with which error |
| `LoopGuard.ScreenedCheck` | internal/agent/safety.go:99-130 | a screened check changes nothing |
| `LoopGuard.UnscreenedCheck` | internal/agent/safety.go:121-197 | any other check is counted for its kind, remembered, judged, and charged its estimated mutations |
| `LoopGuard.HistoryKeepsSixteen` | internal/agent/safety.go:137-142 | the history keeps the last sixteen calls, the new one at the end |
| `LoopGuard.LooksAlikeIff` | internal/agent/safety.go:251-267 | two calls look alike exactly with the same tool and arguments, and for update_gate the same gate and type |
| `LoopGuard.KindsOfTools` | internal/agent/safety.go:371-383 | which tools read, validate and mutate |
| `LoopGuard.UnsuspectedCallPasses` | internal/agent/safety.go:144-197 | a call that completes no repetition is let through and spends no token |
| `LoopGuard.RepeatedCallIsStopped` | internal/agent/safety.go:153-163 | from the fourth consecutive check of one call on (the third without soft warnings) a loop is reported, whatever came before |
| `LoopGuard.AlternationIsStopped` | internal/agent/safety.go:164-174 | two different calls in turn, not both read or validate: a loop is reported from the eighth check on |
| `LoopGuard.RepeatIsWarnedTwice` | internal/agent/safety.go:269-282 | the second and third check of a new call are warned about, not refused |
| `LoopGuard.AlternationIsWarnedFirst` | internal/agent/safety.go:164-174 | the fourth to seventh check of two new calls in turn are warned about, so the eighth is the first refused |
| `LoopGuard.AlternationIsStoppedIff` | internal/agent/safety.go:200-216 | from the twelfth check on a loop is reported exactly unless both calls are reads or both are validations |
| `LoopGuard.TwoReadsGoOn` | internal/agent/safety.go:200-216 | two concrete reads in turn are not refused, however long they go on |
| `LoopGuard.JudgeTurns` | internal/agent/safety.go:284-316 | on four calls in turn the verdict depends on the two calls and the tokens spent only |
| `LoopGuard.GateToggleIsCaught` | internal/agent/safety.go:181-186 | two gate types set in turn on one gate never pass the fourth call, whatever their other arguments |
| `LoopGuard.GateToggleIsRefusedIff` | internal/agent/safety.go:169-186 | with soft warnings such a call is refused exactly when the same four calls were warned about twice before |
| `LoopGuard.DifferentCallsGoOn` | internal/agent/safety.go:318-338 | with soft warnings any number of calls that are all different and new to the session is never refused as a loop |
| `LoopGuard.RunsStayWithinBudgets` | internal/agent/safety.go:121-142 | over any rounds, checks and recorded mutations the history, the calls per kind and the node mutations stay within their limits |
| `Chunking.SplitNodes` | internal/ai/client.go:620-631 | each chunk gets its slice of the nodes, and every identifier is indexed by the chunk of its last node |
| `Chunking.SplitEdges` | internal/ai/client.go:633-645 | each chunk gets the edges at home in it and the cross list the rest, in order, with the chunks of their ends |
| `Chunking.BuildChunkedGraphPayload` | internal/ai/client.go:604-661 | graphs of at most 400 nodes are not split; others are split into the partition |
| `Chunking.NodesAreKept` | internal/ai/client.go:620-661 | the chunks' nodes in a row are the original list; each chunk is the slice its range says, with 1 to 400 nodes |
| `Chunking.EdgesAreKept` | internal/ai/client.go:633-645 | every edge lands exactly once, in one chunk or in the cross list |
| `Chunking.EndsAreInside` | internal/ai/client.go:637-640 | an edge inside a chunk has both ends among that chunk's nodes |
| `Chunking.CrossEdgesCross` | internal/ai/client.go:641-644 | a cross edge joins two chunks or lacks an end, and carries the chunk of its source and of its target |
| `Chunking.OrderIsKept` | internal/ai/client.go:633-645 | edges that land in the same list keep their order |
| `Chunking.HomeIsLast` | internal/ai/client.go:625-631 | with repeated identifiers the last node decides the chunk |

## Left out

- JSON decoding, trimming, case folding, text truncation, node geometry, probabilities, message texts and audit records: requests arrive decoded and with canonical identifiers.
- Identifiers that differ only in case, or contain blanks: the code compares them in two ways (folded when adding and finding edges, exactly when removing); here identifiers are already canonical.
- The order of strings: identifiers sort by serial number.
- Fresh identifiers are counted up; the random identifiers of the backend are taken never to repeat.
- Engine.ApplyRead: does not describe the payloads of get_graph_snapshot, get_node_detail, check_gate_semantics and validate_fta_constraints, which would add easy members; get_subtree and the checker behind the last one are modelled.
- Constraints.EvaluateIssues: states which issues are reported, not their order, repetition, severity texts or suggestions; the gates look at the codes only.
- Callbacks.CallbackHandler.HandleTaskCallback: does not model the project's generation status, which is written on a best-effort basis and read by none of these guards, nor cached statuses and published events.
- The guard of delete_node against removing no node at all: it cannot fire once the node was found.
- Which of several errors is reported when more than one write of a transaction would fail.
- Database and Redis internals: a transaction is one atomic step, a revision test is a test-and-set, a lock insert is insert-if-absent, a cache entry may vanish at any time.
- Lost updates through Execute and ApplyPatchSet: they read the graph before the revision and expect none, so only their gate and the step by one are claimed; in the store protocol they are writes without a base.
- `ProjectRepository.Update`, which saves a whole project row including its revision, and project deletion.
- Lock expiry, and a lock release split into a read and a later delete: mutual exclusion needs both to stay out.
- A queue write that is reported as failed but went through: the dispatcher would release the lock of a task that is on the worker stream.
- Status writes by dispatchers during a callback sequence: `Callbacks` takes callbacks alone, `DispatchRuns` has both but claims only exclusion and conservation.
- A failing dedupe store, after which a callback is processed although its key may be known, and the expiry of keys.
- Stream trimming, acknowledgements, tracking of stream entries beyond how many a clearing can delete, and tasks of other types.
- Collisions between joined key strings in the loop guard: keys are tuples here.
- Session cancellation and the order of reads and mutations within a round, which the code does not guarantee.
- The summary header of a chunked payload and the fields of nodes and edges beyond identifiers; an input edge's own sourceChunk or targetChunk field, which the payload overwrites.
- HTTP, storage, documents, model clients, prompts, the worker process, hybrid previews and text parsing.
