/** Batches, plans and commits: how a tool call becomes one gated, revision-checked write. */
module Planning {
  import opened Basics
  import opened FaultTree
  import opened Edits
  import opened Constraints

  // ---------- batches ----------

  function ModeOf(op: Op): Mode
    requires op.Batch?
  {
    if op.repairMode then Repair else Strict
  }

  /** A batch runs its members in order; in repair mode the permissive gate judges the result. */
  ghost function BatchOutcome(g: Graph, next: nat, op: Op): Outcome
    requires op.Batch?
  {
    if op.ops == [] then Fails(g, next, InvalidParameters)
    else
      var ran := RunOps(g, next, op.ops, ModeOf(op));
      if ran.reply.Ok? && op.repairMode && !PassesPermissive(ran.graph)
      then Fails(ran.graph, ran.next, OperationNotAllowed)
      else ran
  }

  ghost function ApplyOutcome(g: Graph, next: nat, op: Op): Outcome
  {
    if op.Batch? then BatchOutcome(g, next, op) else SingleOutcome(g, next, op, Strict)
  }

  // ---------- plans ----------

  datatype Plan = Plan(operations: seq<Op>, result: OpResult, repairMode: bool)

  datatype PlanReply = Planned(plan: Plan) | Refused(error: Error)

  datatype PlanOutcome = PlanOutcome(graph: Graph, next: nat, reply: PlanReply)

  const EMPTY_PLAN := Plan([], NO_CHANGE, false)

  function Expand(op: Op): seq<Op>
  {
    if op.Batch? && op.ops != [] then op.ops else [op]
  }

  /** When an operation reports no counts they are taken from its patch. */
  function Counted(r: OpResult): OpResult
  {
    if r.changedNodes == 0 && r.changedEdges == 0 then
      r.(changedNodes := |r.patch.upsertNodes| + |r.patch.deleteNodes|,
         changedEdges := |r.patch.upsertEdges| + |r.patch.deleteEdges|)
    else r
  }

  predicate IsRepairBatch(op: Op)
  {
    op.Batch? && op.repairMode
  }

  ghost function PlanCall(g: Graph, next: nat, op: Op): PlanOutcome
  {
    var refusal := Refusal(op);
    if refusal.Some? then PlanOutcome(g, next, Refused(refusal.value))
    else
      var done := ApplyOutcome(g, next, op);
      if done.reply.Err? then PlanOutcome(done.graph, done.next, Refused(done.reply.error))
      else PlanOutcome(done.graph, done.next, Planned(Plan(Expand(op), Counted(done.reply.result), IsRepairBatch(op))))
  }

  /** The operations of a plan, each planned again on the running state, and the merged plan. */
  ghost function PlanAll(g: Graph, next: nat, ops: seq<Op>, repairMode: bool): PlanOutcome
  {
    if ops == [] then PlanOutcome(g, next, Planned(EMPTY_PLAN.(repairMode := repairMode)))
    else
      var before := PlanAll(g, next, ops[..|ops| - 1], repairMode);
      if before.reply.Refused? then before
      else
        var op := ops[|ops| - 1];
        var last := PlanCall(before.graph, before.next, op);
        if last.reply.Refused? then last
        else
          var p, q := before.reply.plan, last.reply.plan;
          last.(reply := Planned(Plan(p.operations + [op], Merge(p.result, q.result), p.repairMode || q.repairMode)))
  }

  predicate HasChanges(r: OpResult)
  {
    || r.changedNodes > 0
    || r.changedEdges > 0
    || |r.patch.upsertNodes| > 0 || |r.patch.deleteNodes| > 0 || |r.patch.upsertEdges| > 0 || |r.patch.deleteEdges| > 0
  }

  predicate RepairDetected(plan: Plan)
  {
    plan.repairMode || exists op :: op in plan.operations && IsRepairBatch(op)
  }

  // ---------- commits ----------

  /** The stored rows of a project and its counters. */
  datatype Stored = Stored(graph: Graph, revision: nat, nodeCount: nat, edgeCount: nat)

  /** What the surroundings decide: the revision FindByID reports, possibly from a stale cache
      (None when there is no project), and whether the transaction's other writes succeed. */
  datatype Surroundings = Surroundings(seen: Option<nat>, writesOk: bool)

  datatype Commit = Committed(revision: nat) | Rejected(error: Error)

  function Persist(s: Stored, g: Graph, expected: int, env: Surroundings): (Stored, Commit)
  {
    if env.seen.None? then (s, Rejected(ProjectNotFound))
    else if expected >= 0 && env.seen.value != expected then (s, Rejected(VersionConflict))
    else
      var base := env.seen.value;
      if !env.writesOk then (s, Rejected(StorageFailure))
      else if s.revision != base then (s, Rejected(VersionConflict))
      else (Stored(g, base + 1, |g.nodes|, |g.edges|), Committed(base + 1))
  }

  datatype Executed = Executed(stored: Stored, graph: Graph, revision: int, reply: Reply)

  /** Gate, write and answer: g is the edited state, expected the caller's revision or -1. */
  ghost function CommitPlan(s: Stored, g: Graph, plan: Plan, expected: int, env: Surroundings): Executed
  {
    if !HasChanges(plan.result) then Executed(s, g, expected, Ok(plan.result))
    else if !(if RepairDetected(plan) then PassesPermissive(g) else PassesStrict(g)) then
      Executed(s, g, expected, Err(OperationNotAllowed))
    else
      var (s', commit) := Persist(s, g, expected, env);
      match commit
      case Rejected(error) => Executed(s', g, expected, Err(error))
      case Committed(revision) => Executed(s', g, revision, Ok(plan.result))
  }

  datatype Snapshot = Snapshot(graph: Graph, revision: int)

  datatype CallOutcome = CallOutcome(stored: Stored, snapshot: Snapshot, next: nat, reply: Reply)

  /** One call against a session's snapshot; the snapshot moves on only when the call succeeds. */
  ghost function ExecuteSnapshot(s: Stored, snap: Snapshot, next: nat, op: Op, env: Surroundings): CallOutcome
  {
    var planned := PlanCall(snap.graph, next, op);
    if planned.reply.Refused? then CallOutcome(s, snap, planned.next, Err(planned.reply.error))
    else
      var done := CommitPlan(s, planned.graph, planned.reply.plan, snap.revision, env);
      var after := if done.reply.Ok? then Snapshot(done.graph, done.revision) else snap;
      CallOutcome(done.stored, after, planned.next, done.reply)
  }

  /** ApplyPatchSet on the stored graph, and Execute of one call on it: both commit without an expected revision. */
  ghost function ApplyPatchSet(s: Stored, next: nat, plan: Plan, env: Surroundings): (Stored, nat, Reply)
  {
    if plan.operations == [] then (s, next, Err(InvalidParameters))
    else
      var planned := PlanAll(s.graph, next, plan.operations, plan.repairMode);
      if planned.reply.Refused? then (s, planned.next, Err(planned.reply.error))
      else
        var done := CommitPlan(s, planned.graph, planned.reply.plan, -1, env);
        (done.stored, planned.next, done.reply)
  }

  ghost function Execute(s: Stored, next: nat, op: Op, env: Surroundings): (Stored, nat, Reply)
  {
    var planned := PlanCall(s.graph, next, op);
    if planned.reply.Refused? then (s, planned.next, Err(planned.reply.error))
    else
      var done := CommitPlan(s, planned.graph, planned.reply.plan, -1, env);
      (done.stored, planned.next, done.reply)
  }
}
