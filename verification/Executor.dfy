/** The executor's entry points, working on a state, a fresh-id supply and a stored project in place. */
module Executor {
  import opened Basics
  import opened FaultTree
  import opened Edits
  import opened TreeState
  import opened Engine
  import opened Constraints
  import opened Planning

  /** The project row and its graph rows. */
  class ProjectStore {
    var graph: Graph
    var revision: nat
    var nodeCount: nat
    var edgeCount: nat

    function View(): Stored
      reads this
    {
      Stored(graph, revision, nodeCount, edgeCount)
    }

    constructor (graph: Graph, revision: nat)
      ensures View() == Stored(graph, revision, |graph.nodes|, |graph.edges|)
    {
      this.graph, this.revision, nodeCount, edgeCount := graph, revision, |graph.nodes|, |graph.edges|;
    }

    /** The replacement of all rows and the revision test-and-set, as one transaction. */
    method ReplaceAndBump(g: Graph, oldRevision: nat, newRevision: nat) returns (affected: nat)
      modifies this
      ensures affected == if old(revision) == oldRevision then 1 else 0
      ensures View() == if affected == 1 then Stored(g, newRevision, |g.nodes|, |g.edges|) else old(View())
    {
      if revision != oldRevision {
        return 0;
      }
      graph, revision, nodeCount, edgeCount := g, newRevision, |g.nodes|, |g.edges|;
      affected := 1;
    }
  }

  method PersistWithExpectedRevision(store: ProjectStore, g: Graph, expected: int, env: Surroundings)
      returns (commit: Commit)
    modifies store
    ensures (store.View(), commit) == Persist(old(store.View()), g, expected, env)
    ensures commit.Committed? <==> env.seen == Some(old(store.revision)) && env.writesOk
                                   && (expected >= 0 ==> expected == old(store.revision))
    ensures store.View() == if commit.Committed? then Stored(g, old(store.revision) + 1, |g.nodes|, |g.edges|)
                            else old(store.View())
    ensures env.seen.None? ==> commit == Rejected(ProjectNotFound)
    ensures env.seen.Some? && expected >= 0 && env.seen.value != expected ==> commit == Rejected(VersionConflict)
    ensures env.seen.Some? && env.seen.value != old(store.revision) && env.writesOk
            ==> commit == Rejected(VersionConflict)
  {
    if env.seen.None? {
      return Rejected(ProjectNotFound);
    }
    var base := env.seen.value;
    if expected >= 0 {
      if env.seen.value != expected {
        return Rejected(VersionConflict);
      }
      base := expected;
    }
    if !env.writesOk {
      return Rejected(StorageFailure);
    }
    var affected := store.ReplaceAndBump(g, base, base + 1);
    commit := if affected == 0 then Rejected(VersionConflict) else Committed(base + 1);
  }

  method CheckParameters(op: Op) returns (refused: Option<Error>)
    ensures refused == Refusal(op)
  {
    if !op.Batch? {
      return SingleRefusal(op);
    }
    if |op.ops| == 0 || |op.ops| > MAX_BATCH {
      return Some(InvalidParameters);
    }
    for i := 0 to |op.ops|
      invariant FirstBatchRefusal(op.ops[..i]).None?
    {
      assert op.ops[..i + 1][..i] == op.ops[..i];
      refused := SingleRefusal(op.ops[i]);
      if refused.Some? {
        BatchRefusalStands(op.ops, i + 1);
        return;
      }
    }
    assert op.ops[..|op.ops|] == op.ops;
    refused := None;
  }

  lemma {:induction false} BatchRefusalStands(ops: seq<Op>, n: nat)
    requires n <= |ops| && FirstBatchRefusal(ops[..n]).Some?
    ensures FirstBatchRefusal(ops) == FirstBatchRefusal(ops[..n])
    decreases |ops|
  {
    if n < |ops| {
      assert ops[..|ops| - 1][..n] == ops[..n];
      BatchRefusalStands(ops[..|ops| - 1], n);
    } else {
      assert ops[..n] == ops;
    }
  }

  lemma {:induction false} RunFailureStands(g: Graph, next: nat, ops: seq<Op>, mode: Mode, n: nat)
    requires n <= |ops|
    ensures RunOps(g, next, ops[..n], mode).reply.Err? ==>
      RunOps(g, next, ops, mode) == RunOps(g, next, ops[..n], mode)
    decreases |ops|
  {
    if n < |ops| {
      assert ops[..|ops| - 1][..n] == ops[..n];
      RunFailureStands(g, next, ops[..|ops| - 1], mode, n);
    } else {
      assert ops[..n] == ops;
    }
  }

  /** One member of a batch: nested batches and bad parameters are refused before anything is applied. */
  method ApplyMember(state: FaultTreeState, ids: IdSupply, member: Op, mode: Mode) returns (reply: Reply)
    requires state.Valid()
    modifies state, ids
    ensures state.Valid()
    ensures Outcome(state.View(), ids.next, reply) == CheckedOutcome(old(state.View()), old(ids.next), member, mode)
  {
    if member.Batch? {
      return Err(OperationNotAllowed);
    }
    var refused := SingleRefusal(member);
    if refused.Some? {
      return Err(refused.value);
    }
    reply := ApplyOperation(state, ids, member, mode);
  }

  /** What one more member does to a run. */
  lemma RunOneMore(g: Graph, next: nat, ops: seq<Op>, mode: Mode, i: nat, last: Outcome)
    requires i < |ops|
    ensures var before := RunOps(g, next, ops[..i], mode);
            before.reply.Ok? && last == CheckedOutcome(before.graph, before.next, ops[i], mode) ==>
              RunOps(g, next, ops[..i + 1], mode) ==
              if last.reply.Err? then last else last.(reply := Ok(Merge(before.reply.result, last.reply.result)))
  {
    assert ops[..i + 1][..i] == ops[..i];
  }

  /** The members of a batch in order, with one merged result. */
  method RunMembers(state: FaultTreeState, ids: IdSupply, ops: seq<Op>, mode: Mode) returns (reply: Reply)
    requires state.Valid()
    modifies state, ids
    ensures state.Valid()
    ensures Outcome(state.View(), ids.next, reply) == RunOps(old(state.View()), old(ids.next), ops, mode)
  {
    ghost var g, next := state.View(), ids.next;
    var merged := NO_CHANGE;
    for i := 0 to |ops|
      invariant state.Valid()
      invariant Outcome(state.View(), ids.next, Ok(merged)) == RunOps(g, next, ops[..i], mode)
    {
      var res := ApplyMember(state, ids, ops[i], mode);
      RunOneMore(g, next, ops, mode, i, Outcome(state.View(), ids.next, res));
      if res.Err? {
        RunFailureStands(g, next, ops, mode, i + 1);
        return res;
      }
      merged := Merge(merged, res.result);
    }
    assert ops[..|ops|] == ops;
    reply := Ok(merged);
  }

  method ApplyBatchOperations(state: FaultTreeState, ids: IdSupply, op: Op) returns (reply: Reply)
    requires state.Valid() && op.Batch?
    modifies state, ids
    ensures state.Valid()
    ensures Outcome(state.View(), ids.next, reply) == BatchOutcome(old(state.View()), old(ids.next), op)
  {
    if |op.ops| == 0 {
      return Err(InvalidParameters);
    }
    reply := RunMembers(state, ids, op.ops, ModeOf(op));
    if reply.Ok? && op.repairMode {
      var error := EnforcePermissive(state.View());
      if error.Some? {
        return Err(error.value);
      }
    }
  }

  method PlanFaultTreeOperation(state: FaultTreeState, ids: IdSupply, op: Op) returns (reply: PlanReply)
    requires state.Valid()
    modifies state, ids
    ensures state.Valid()
    ensures PlanOutcome(state.View(), ids.next, reply) == PlanCall(old(state.View()), old(ids.next), op)
  {
    var refused := CheckParameters(op);
    if refused.Some? {
      return Refused(refused.value);
    }
    var res: Reply;
    if op.Batch? {
      res := ApplyBatchOperations(state, ids, op);
    } else {
      res := ApplyOperation(state, ids, op, Strict);
    }
    reply := match res
      case Err(error) => Refused(error)
      case Ok(result) => Planned(Plan(Expand(op), Counted(result), IsRepairBatch(op)));
  }

  method ApplyPlannedPatchSet(store: ProjectStore, state: FaultTreeState, plan: Plan, expected: int, env: Surroundings)
    returns (revision: int, reply: Reply)
    modifies store
    ensures Executed(store.View(), state.View(), revision, reply)
            == CommitPlan(old(store.View()), state.View(), plan, expected, env)
  {
    if HasChanges(plan.result) {
      var error: Option<Error>;
      if RepairDetected(plan) {
        error := EnforcePermissive(state.View());
      } else {
        error := EnforceStrict(state.View());
      }
      if error.Some? {
        return expected, Err(error.value);
      }
      var commit := PersistWithExpectedRevision(store, state.View(), expected, env);
      match commit
      case Rejected(e) => return expected, Err(e);
      case Committed(r) => return r, Ok(plan.result);
    }
    return expected, Ok(plan.result);
  }

  /** The agent session's copy of the graph. */
  class RuntimeSnapshot {
    var graph: Graph
    var revision: int

    constructor (graph: Graph, revision: int)
      ensures View() == Snapshot(graph, revision)
    {
      this.graph, this.revision := graph, revision;
    }

    function View(): Snapshot
      reads this
    {
      Snapshot(graph, revision)
    }

    /** One server tool call against this snapshot. */
    method Dispatch(store: ProjectStore, ids: IdSupply, op: Op, env: Surroundings) returns (reply: Reply)
      modifies this, store, ids
      ensures CallOutcome(store.View(), View(), ids.next, reply)
              == ExecuteSnapshot(old(store.View()), old(View()), old(ids.next), op, env)
    {
      var state := new FaultTreeState(graph.nodes, graph.edges);
      var planned := PlanFaultTreeOperation(state, ids, op);
      if planned.Refused? {
        return Err(planned.error);
      }
      var next: int;
      next, reply := ApplyPlannedPatchSet(store, state, planned.plan, revision, env);
      if reply.Ok? {
        graph, revision := state.View(), next;
      }
    }
  }

  method ExecuteStored(store: ProjectStore, ids: IdSupply, op: Op, env: Surroundings) returns (reply: Reply)
    modifies store, ids
    ensures (store.View(), ids.next, reply) == Execute(old(store.View()), old(ids.next), op, env)
  {
    var state := new FaultTreeState(store.graph.nodes, store.graph.edges);
    var planned := PlanFaultTreeOperation(state, ids, op);
    if planned.Refused? {
      return Err(planned.error);
    }
    var _, r := ApplyPlannedPatchSet(store, state, planned.plan, -1, env);
    reply := r;
  }

  lemma {:induction false} PlanFailureStands(g: Graph, next: nat, ops: seq<Op>, repairMode: bool, n: nat)
    requires n <= |ops|
    ensures PlanAll(g, next, ops[..n], repairMode).reply.Refused? ==>
      PlanAll(g, next, ops, repairMode) == PlanAll(g, next, ops[..n], repairMode)
    decreases |ops|
  {
    if n < |ops| {
      assert ops[..|ops| - 1][..n] == ops[..n];
      PlanFailureStands(g, next, ops[..|ops| - 1], repairMode, n);
    } else {
      assert ops[..n] == ops;
    }
  }

  /** What planning one more operation does to a merged plan. */
  lemma PlanOneMore(g: Graph, next: nat, ops: seq<Op>, repairMode: bool, i: nat, last: PlanOutcome)
    requires i < |ops|
    ensures var before := PlanAll(g, next, ops[..i], repairMode);
            before.reply.Planned? && last == PlanCall(before.graph, before.next, ops[i]) ==>
              PlanAll(g, next, ops[..i + 1], repairMode) ==
              if last.reply.Refused? then last
              else last.(reply := Planned(MergedPlan(before.reply.plan, ops[i], last.reply.plan)))
  {
    assert ops[..i + 1][..i] == ops[..i];
  }

  function MergedPlan(merged: Plan, op: Op, planned: Plan): Plan
  {
    Plan(merged.operations + [op], Merge(merged.result, planned.result), merged.repairMode || planned.repairMode)
  }

  /** The operations of a plan, each planned again on the running state. */
  method PlanOperations(state: FaultTreeState, ids: IdSupply, ops: seq<Op>, repairMode: bool) returns (reply: PlanReply)
    requires state.Valid()
    modifies state, ids
    ensures state.Valid()
    ensures PlanOutcome(state.View(), ids.next, reply) == PlanAll(old(state.View()), old(ids.next), ops, repairMode)
  {
    ghost var g, next := state.View(), ids.next;
    var merged := EMPTY_PLAN.(repairMode := repairMode);
    for i := 0 to |ops|
      invariant state.Valid()
      invariant PlanOutcome(state.View(), ids.next, Planned(merged)) == PlanAll(g, next, ops[..i], repairMode)
    {
      var planned := PlanFaultTreeOperation(state, ids, ops[i]);
      PlanOneMore(g, next, ops, repairMode, i, PlanOutcome(state.View(), ids.next, planned));
      if planned.Refused? {
        PlanFailureStands(g, next, ops, repairMode, i + 1);
        return planned;
      }
      merged := MergedPlan(merged, ops[i], planned.plan);
    }
    assert ops[..|ops|] == ops;
    reply := Planned(merged);
  }

  method ApplyPatchSetStored(store: ProjectStore, ids: IdSupply, plan: Plan, env: Surroundings) returns (reply: Reply)
    modifies store, ids
    ensures (store.View(), ids.next, reply) == ApplyPatchSet(old(store.View()), old(ids.next), plan, env)
  {
    if |plan.operations| == 0 {
      return Err(InvalidParameters);
    }
    var state := new FaultTreeState(store.graph.nodes, store.graph.edges);
    var planned := PlanOperations(state, ids, plan.operations, plan.repairMode);
    if planned.Refused? {
      return Err(planned.error);
    }
    var _, r := ApplyPlannedPatchSet(store, state, planned.plan, -1, env);
    reply := r;
  }
}
