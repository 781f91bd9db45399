/** Properties of calls and runs of calls: what a commit changes, what a failure leaves alone, and
    when a plan can be replayed. */
module CommittedRuns {
  import opened Basics
  import opened Reachability
  import opened FaultTree
  import opened Edits
  import opened Sorting
  import opened Restructuring
  import opened Constraints
  import opened Soundness
  import opened PatchReplay
  import opened Planning

  // ---------- results without changes ----------

  lemma DeletesSomething(nodes: seq<Node>, id: Id, doomed: set<Id>)
    requires Position(nodes, id).Some? && id in doomed
    ensures Only(nodes, NodesIn(nodes, doomed)) != []
  {
    OnlyMembers(nodes, NodesIn(nodes, doomed));
    assert nodes[Position(nodes, id).value] in Only(nodes, NodesIn(nodes, doomed));
  }

  /** An operation whose result counts nothing has an empty patch and leaves the graph alone. */
  lemma QuietOperation(g: Graph, next: nat, op: Op, mode: Mode)
    requires !op.Batch?
    ensures var done := SingleOutcome(g, next, op, mode);
            done.reply.Ok? && done.reply.result.changedNodes == 0 ==> done == Outcome(g, next, Ok(NO_CHANGE))
  {
    if op.DeleteNode? && SingleOutcome(g, next, op, mode).reply.Ok? {
      DeletesSomething(g.nodes, op.nodeId, Doomed(g, op));
    }
  }

  /** Nothing counted, nothing done. */
  ghost predicate Quiet(g: Graph, next: nat, done: Outcome)
  {
    done.reply.Ok? && done.reply.result.changedNodes == 0 ==>
      done.graph == g && done.next == next && !HasChanges(done.reply.result)
  }

  lemma QuietMember(g: Graph, next: nat, op: Op, mode: Mode)
    ensures Quiet(g, next, CheckedOutcome(g, next, op, mode))
  {
    var done := CheckedOutcome(g, next, op, mode);
    if done.reply.Ok? && done.reply.result.changedNodes == 0 {
      QuietOperation(g, next, op, mode);
    }
  }

  lemma QuietThenQuiet(g: Graph, next: nat, before: Outcome, last: Outcome)
    requires before.reply.Ok? && last.reply.Ok? && Quiet(g, next, before) && Quiet(before.graph, before.next, last)
    ensures Quiet(g, next, last.(reply := Ok(Merge(before.reply.result, last.reply.result))))
  {
  }

  lemma {:induction false} QuietRun(g: Graph, next: nat, ops: seq<Op>, mode: Mode)
    ensures Quiet(g, next, RunOps(g, next, ops, mode))
    decreases |ops|
  {
    if ops != [] {
      var before := RunOps(g, next, ops[..|ops| - 1], mode);
      QuietRun(g, next, ops[..|ops| - 1], mode);
      if before.reply.Ok? {
        var last := CheckedOutcome(before.graph, before.next, ops[|ops| - 1], mode);
        QuietMember(before.graph, before.next, ops[|ops| - 1], mode);
        if last.reply.Ok? {
          QuietThenQuiet(g, next, before, last);
        }
      }
    }
  }

  /** Without changes in the plan nothing happened; with changes the counts are the batch's own. */
  lemma PlanCounts(g: Graph, next: nat, op: Op)
    requires PlanCall(g, next, op).reply.Planned?
    ensures var done, plan := ApplyOutcome(g, next, op), PlanCall(g, next, op).reply.plan;
            && plan.result == done.reply.result
            && (HasChanges(plan.result) <==> plan.result.changedNodes > 0)
            && (!HasChanges(plan.result) ==> done.graph == g)
  {
    var done := ApplyOutcome(g, next, op);
    if done.reply.result.changedNodes == 0 {
      if op.Batch? {
        QuietRun(g, next, op.ops, ModeOf(op));
      } else {
        QuietOperation(g, next, op, Strict);
      }
    }
  }

  // ---------- one call ----------

  /** The gate that judges a call: permissive for a batch in repair mode, strict otherwise. */
  ghost predicate PassesItsGate(op: Op, g: Graph)
  {
    if IsRepairBatch(op) then PassesPermissive(g) else PassesStrict(g)
  }

  ghost predicate Commits(s: Stored, snap: Snapshot, next: nat, op: Op, env: Surroundings)
  {
    var done := ExecuteSnapshot(s, snap, next, op, env);
    done.reply.Ok? && HasChanges(done.reply.result)
  }

  lemma NoNestedRepair(op: Op)
    requires Refusal(op).None?
    ensures (exists o :: o in Expand(op) && IsRepairBatch(o)) ==> IsRepairBatch(op)
  {
    if op.Batch? {
      MembersAreSingle(op.ops);
    }
  }

  lemma {:induction false} MembersAreSingle(ops: seq<Op>)
    requires FirstBatchRefusal(ops).None?
    ensures forall o :: o in ops ==> !o.Batch? && SingleRefusal(o).None?
    decreases |ops|
  {
    if ops != [] {
      var init, last := ops[..|ops| - 1], ops[|ops| - 1];
      MembersAreSingle(init);
      forall o | o in ops ensures !o.Batch? && SingleRefusal(o).None? {
        assert o in init || o == last;
      }
    }
  }

  /** One call: a commit raises the revision by exactly one and stores the graph its gate accepted,
      which is also the session's new snapshot; a quiet success changes neither graph nor revision;
      a failure, even in the middle of a batch, changes neither the store nor the snapshot. */
  lemma CallEffect(s: Stored, snap: Snapshot, next: nat, op: Op, env: Surroundings)
    ensures var done := ExecuteSnapshot(s, snap, next, op, env);
            && (Commits(s, snap, next, op, env) ==>
                  && done.stored.revision == s.revision + 1
                  && done.stored.graph == ApplyOutcome(snap.graph, next, op).graph
                  && PassesItsGate(op, done.stored.graph)
                  && done.stored.nodeCount == |done.stored.graph.nodes| &&
                    done.stored.edgeCount == |done.stored.graph.edges|
                  && done.snapshot == Snapshot(done.stored.graph, done.stored.revision)
                  && (snap.revision >= 0 ==> snap.revision == s.revision))
            && (!Commits(s, snap, next, op, env) ==> done.stored == s && done.snapshot == snap)
  {
    var planned := PlanCall(snap.graph, next, op);
    if planned.reply.Planned? {
      PlanCounts(snap.graph, next, op);
      NoNestedRepair(op);
    }
  }

  /** Exactly when a call succeeds: its parameters and its operation are accepted, and if it has changes, its
      gate accepts the graph, the project is seen at the stored revision, which is the session's too, and the
      writes go through. It answers with the operation's own patch and counts. */
  lemma CallSucceedsIff(s: Stored, snap: Snapshot, next: nat, op: Op, env: Surroundings)
    ensures var done, applied := ExecuteSnapshot(s, snap, next, op, env), ApplyOutcome(snap.graph, next, op);
            && (done.reply.Ok? <==>
                  && Refusal(op).None? && applied.reply.Ok?
                  && (HasChanges(applied.reply.result) ==>
                        && PassesItsGate(op, applied.graph)
                        && env.seen == Some(s.revision) && (snap.revision >= 0 ==> snap.revision == s.revision)
                        && env.writesOk))
            && (done.reply.Ok? ==> done.reply.result == applied.reply.result && done.snapshot.graph == applied.graph)
            && (Refusal(op).Some? ==> done.reply == Err(Refusal(op).value))
            && (Refusal(op).None? && applied.reply.Err? ==> done.reply == applied.reply)
            && (Refusal(op).None? && applied.reply.Ok? && HasChanges(applied.reply.result)
                && !PassesItsGate(op, applied.graph)
                ==> done.reply == Err(OperationNotAllowed))
  {
    var planned := PlanCall(snap.graph, next, op);
    if planned.reply.Planned? {
      PlanCounts(snap.graph, next, op);
      NoNestedRepair(op);
    }
  }

  /** The patch a successful call answers with replays the session's old snapshot to its new one. */
  lemma CallReplays(s: Stored, snap: Snapshot, next: nat, op: Op, env: Surroundings)
    requires Keyed(snap.graph) && Issued(snap.graph, next)
    ensures var done := ExecuteSnapshot(s, snap, next, op, env);
            done.reply.Ok? ==> Replay(snap.graph, done.reply.result.patch) == done.snapshot.graph
  {
    CallSucceedsIff(s, snap, next, op, env);
    if ExecuteSnapshot(s, snap, next, op, env).reply.Err? {
      return;
    }
    if op.Batch? {
      RunReplays(snap.graph, next, op.ops, ModeOf(op));
    } else {
      OperationReplays(snap.graph, next, op, Strict);
    }
  }

  /** Execute on the stored graph: a commit raises the revision by one and stores the edited graph, which its
      gate accepts; any other answer leaves the store alone. */
  lemma StoredCallEffect(s: Stored, next: nat, op: Op, env: Surroundings)
    ensures var (s', _, reply) := Execute(s, next, op, env);
            if reply.Ok? && HasChanges(reply.result) then
              && s'.revision == s.revision + 1 && s'.graph == ApplyOutcome(s.graph, next, op).graph
              && s'.nodeCount == |s'.graph.nodes| && s'.edgeCount == |s'.graph.edges|
              && PassesItsGate(op, s'.graph)
            else s' == s
  {
    if PlanCall(s.graph, next, op).reply.Planned? {
      PlanCounts(s.graph, next, op);
      NoNestedRepair(op);
    }
  }

  /** One plan committed: gate, write and answer. */
  lemma CommitEffect(s: Stored, g: Graph, plan: Plan, expected: int, env: Surroundings)
    ensures var done := CommitPlan(s, g, plan, expected, env);
            if done.reply.Ok? && HasChanges(done.reply.result) then
              && done.stored.revision == s.revision + 1 && done.stored.graph == g
              && done.stored.nodeCount == |g.nodes| && done.stored.edgeCount == |g.edges|
              && PassesPermissive(g) && (!RepairDetected(plan) ==> PassesStrict(g))
            else done.stored == s
  {
    if PassesStrict(g) {
      StrictImpliesPermissive(g);
    }
  }

  /** ApplyPatchSet likewise; its gate is permissive when the plan or one of its operations is in repair mode. */
  lemma PatchSetEffect(s: Stored, next: nat, plan: Plan, env: Surroundings)
    ensures var (s', _, reply) := ApplyPatchSet(s, next, plan, env);
            if reply.Ok? && HasChanges(reply.result) then
              && s'.revision == s.revision + 1
              && s'.graph == PlanAll(s.graph, next, plan.operations, plan.repairMode).graph
              && s'.nodeCount == |s'.graph.nodes| && s'.edgeCount == |s'.graph.edges|
              && PassesPermissive(s'.graph)
              && (!plan.repairMode && (forall o :: o in plan.operations ==> !IsRepairBatch(o))
                ==> PassesStrict(s'.graph))
            else s' == s
  {
    var planned := PlanAll(s.graph, next, plan.operations, plan.repairMode);
    if plan.operations != [] && planned.reply.Planned? {
      if !plan.repairMode && forall o :: o in plan.operations ==> !IsRepairBatch(o) {
        PlanAllStaysStrict(s.graph, next, plan.operations);
      }
      CommitEffect(s, planned.graph, planned.reply.plan, -1, env);
    }
  }

  lemma StaysStrict(p: Plan, op: Op, q: Plan)
    requires !RepairDetected(p) && !IsRepairBatch(op) && !q.repairMode
    ensures !RepairDetected(Plan(p.operations + [op], Merge(p.result, q.result), p.repairMode || q.repairMode))
  {
  }

  lemma {:induction false} PlanAllStaysStrict(g: Graph, next: nat, ops: seq<Op>)
    requires PlanAll(g, next, ops, false).reply.Planned? && forall i :: 0 <= i < |ops| ==> !IsRepairBatch(ops[i])
    ensures !RepairDetected(PlanAll(g, next, ops, false).reply.plan)
    decreases |ops|
  {
    if ops != [] {
      var before := PlanAll(g, next, ops[..|ops| - 1], false);
      PlanAllStaysStrict(g, next, ops[..|ops| - 1]);
      PlanSays(before.graph, before.next, ops[|ops| - 1]);
      StaysStrict(before.reply.plan, ops[|ops| - 1], PlanCall(before.graph, before.next, ops[|ops| - 1]).reply.plan);
    }
  }

  lemma PlanSays(g: Graph, next: nat, op: Op)
    ensures PlanCall(g, next, op).reply.Planned? ==> PlanCall(g, next, op).reply.plan.repairMode == IsRepairBatch(op)
  {
  }

  // ---------- runs of calls ----------

  datatype World = World(stored: Stored, snapshots: map<nat, Snapshot>, next: nat)

  /** One call of a session in given surroundings. */
  datatype Request = Request(session: nat, op: Op, env: Surroundings)

  ghost function Step(w: World, r: Request): World
  {
    if r.session !in w.snapshots then w
    else
      var done := ExecuteSnapshot(w.stored, w.snapshots[r.session], w.next, r.op, r.env);
      World(done.stored, w.snapshots[r.session := done.snapshot], done.next)
  }

  ghost predicate StepCommits(w: World, r: Request)
  {
    r.session in w.snapshots && Commits(w.stored, w.snapshots[r.session], w.next, r.op, r.env)
  }

  ghost function Run(w: World, rs: seq<Request>): World
  {
    if rs == [] then w else Step(Run(w, rs[..|rs| - 1]), rs[|rs| - 1])
  }

  ghost function CommitCount(w: World, rs: seq<Request>): nat
  {
    if rs == [] then 0
    else
      CommitCount(w, rs[..|rs| - 1]) + if StepCommits(Run(w, rs[..|rs| - 1]), rs[|rs| - 1]) then 1 else 0
  }

  /** Over any run of calls by any sessions, from any stored graph: the revision counts the commits;
      after a commit the stored graph passes the permissive gate, and the strict one too when no repair
      batch was called; and without a commit the store is untouched. */
  lemma {:induction false} RunsCommitGatedGraphs(w: World, rs: seq<Request>)
    ensures var w' := Run(w, rs);
            && w'.stored.revision == w.stored.revision + CommitCount(w, rs)
            && (CommitCount(w, rs) > 0 ==> PassesPermissive(w'.stored.graph))
            && (CommitCount(w, rs) > 0 && NoRepair(rs) ==> PassesStrict(w'.stored.graph))
            && (CommitCount(w, rs) == 0 ==> w'.stored == w.stored)
    decreases |rs|
  {
    if rs != [] {
      var init, r := rs[..|rs| - 1], rs[|rs| - 1];
      RunsCommitGatedGraphs(w, init);
      assert rs == init + [r];
      var before := Run(w, init);
      if r.session in before.snapshots {
        CallEffect(before.stored, before.snapshots[r.session], before.next, r.op, r.env);
        if StepCommits(before, r) && !IsRepairBatch(r.op) {
          StrictImpliesPermissive(Step(before, r).stored.graph);
        }
      }
    }
  }

  predicate NoRepair(rs: seq<Request>)
  {
    forall r :: r in rs ==> !IsRepairBatch(r.op)
  }

  /** So a stored graph that passes its gate goes on passing it. */
  lemma RunsKeepGate(w: World, rs: seq<Request>)
    ensures PassesPermissive(w.stored.graph) ==> PassesPermissive(Run(w, rs).stored.graph)
    ensures PassesStrict(w.stored.graph) && NoRepair(rs) ==> PassesStrict(Run(w, rs).stored.graph)
  {
    RunsCommitGatedGraphs(w, rs);
  }

  /** No call touches another session's snapshot. */
  lemma OtherSnapshotsKept(w: World, r: Request, session: nat)
    requires session in w.snapshots && session != r.session
    ensures session in Step(w, r).snapshots && Step(w, r).snapshots[session] == w.snapshots[session]
  {
  }

  // ---------- repair batches from sound graphs ----------

  /** From a sound graph the permissive gate never rejects a batch: it succeeds exactly when its members do. */
  lemma RepairGateNeverRejects(g: Graph, next: nat, op: Op)
    requires Sound(g) && Issued(g, next) && op.Batch? && op.ops != []
    ensures BatchOutcome(g, next, op).reply.Ok? <==> RunOps(g, next, op.ops, ModeOf(op)).reply.Ok?
    ensures BatchOutcome(g, next, op).reply.Ok? ==> Sound(BatchOutcome(g, next, op).graph)
  {
    if RunOps(g, next, op.ops, ModeOf(op)).reply.Ok? {
      RunKeepsSound(g, next, op.ops, ModeOf(op));
    }
  }

  /** The patch a batch reports replays to the graph it commits. */
  lemma BatchReplays(g: Graph, next: nat, op: Op)
    requires Keyed(g) && Issued(g, next) && op.Batch? && PlanCall(g, next, op).reply.Planned?
    ensures var planned := PlanCall(g, next, op); Replay(g, planned.reply.plan.result.patch) == planned.graph
  {
    PlanCounts(g, next, op);
    RunReplays(g, next, op.ops, ModeOf(op));
  }

  // ---------- plan, then apply ----------

  /** What the strict engine allows, the permissive one does identically. */
  lemma StrictIsPermissive(g: Graph, next: nat, op: Op)
    requires !op.Batch? && SingleOutcome(g, next, op, Strict).reply.Ok?
    ensures SingleOutcome(g, next, op, Repair) == SingleOutcome(g, next, op, Strict)
  {
  }

  lemma {:induction false} StrictRunIsPermissive(g: Graph, next: nat, ops: seq<Op>)
    requires RunOps(g, next, ops, Strict).reply.Ok?
    ensures RunOps(g, next, ops, Repair) == RunOps(g, next, ops, Strict)
    decreases |ops|
  {
    if ops != [] {
      var before := RunOps(g, next, ops[..|ops| - 1], Strict);
      StrictRunIsPermissive(g, next, ops[..|ops| - 1]);
      StrictIsPermissive(before.graph, before.next, ops[|ops| - 1]);
    }
  }

  /** Planning checked single operations one by one is running them strictly. */
  lemma {:induction false} PlanAllIsRun(g: Graph, next: nat, ops: seq<Op>, repairMode: bool)
    requires forall o :: o in ops ==> !o.Batch? && SingleRefusal(o).None?
    ensures var run, planned := RunOps(g, next, ops, Strict), PlanAll(g, next, ops, repairMode);
            && planned.graph == run.graph && planned.next == run.next
            && planned.reply == match run.reply
                                case Ok(result) => Planned(Plan(ops, result, repairMode))
                                case Err(error) => Refused(error)
    decreases |ops|
  {
    if ops != [] {
      var init, op := ops[..|ops| - 1], ops[|ops| - 1];
      assert ops == init + [op];
      PlanAllIsRun(g, next, init, repairMode);
      var before := PlanAll(g, next, init, repairMode);
      if before.reply.Planned? && PlanCall(before.graph, before.next, op).reply.Planned? {
        PlanCounts(before.graph, before.next, op);
      }
    }
  }

  lemma MergeNothing(r: OpResult)
    ensures Merge(NO_CHANGE, r) == r
  {
    assert [] + r.patch.upsertNodes == r.patch.upsertNodes && [] + r.patch.deleteNodes == r.patch.deleteNodes;
    assert [] + r.patch.upsertEdges == r.patch.upsertEdges && [] + r.patch.deleteEdges == r.patch.deleteEdges;
  }

  /** A single call is a run of one. */
  lemma RunOfOne(g: Graph, next: nat, op: Op, done: Outcome)
    requires done == CheckedOutcome(g, next, op, Strict)
    ensures RunOps(g, next, [op], Strict) == done
  {
    RunUnit(g, next, [op], done);
    if done.reply.Ok? {
      MergeNothing(done.reply.result);
    }
  }

  lemma RunUnit(g: Graph, next: nat, ops: seq<Op>, done: Outcome)
    requires |ops| == 1 && done == CheckedOutcome(g, next, ops[0], Strict)
    ensures RunOps(g, next, ops, Strict) ==
            if done.reply.Err? then done else done.(reply := Ok(Merge(NO_CHANGE, done.reply.result)))
  {
    assert ops[..0] == [];
  }

  lemma BatchPlanApplies(s: Stored, next: nat, op: Op, plan: Plan, env: Surroundings)
    requires op.Batch? && !op.repairMode && PlanCall(s.graph, next, op).reply == Planned(plan)
    ensures ApplyPatchSet(s, next, plan, env) == Execute(s, next, op, env)
  {
    PlanCounts(s.graph, next, op);
    MembersAreSingle(op.ops);
    PlanAllIsRun(s.graph, next, op.ops, false);
  }

  lemma SinglePlanApplies(s: Stored, next: nat, op: Op, plan: Plan, env: Surroundings)
    requires !op.Batch? && PlanCall(s.graph, next, op).reply == Planned(plan)
    ensures ApplyPatchSet(s, next, plan, env) == Execute(s, next, op, env)
  {
    PlanCounts(s.graph, next, op);
    RunOfOne(s.graph, next, op, CheckedOutcome(s.graph, next, op, Strict));
    PlanAllIsRun(s.graph, next, [op], false);
  }

  /** Plan then apply equals direct execution: the operations of a plan, applied to the same stored graph, give
      the same store, patch and counts as executing the call, whether a single operation or a batch that is
      not in repair mode. */
  lemma PlanThenApply(s: Stored, next: nat, op: Op, plan: Plan, env: Surroundings)
    requires !IsRepairBatch(op) && PlanCall(s.graph, next, op).reply == Planned(plan)
    ensures plan.operations == if op.Batch? then op.ops else [op]
    ensures ApplyPatchSet(s, next, plan, env) == Execute(s, next, op, env)
  {
    if op.Batch? {
      BatchPlanApplies(s, next, op, plan, env);
    } else {
      SinglePlanApplies(s, next, op, plan, env);
    }
  }

  /** The guards that only the strict variants have. */
  predicate MeetsStrictGuard(g: Graph, op: Op)
  {
    match op
    case AddNode(_, _, _, parent) => parent == NoId || IsKind(g, parent, Gate)
    case AddGate(gate, _, children) => gate == Some(Not) || |Distinct(children)| >= 2
    case DeleteNode(id, deleteChildren) =>
      deleteChildren || ChildrenOf(g.edges, id) - {NoId} == {} || ParentsOf(g.edges, id) - {NoId} != {}
    case MoveNode(id, parent) => IsKind(g, parent, Gate) || IsKind(g, id, Gate)
    case _ => true
  }

  predicate IsKind(g: Graph, id: Id, kind: NodeKind)
  {
    var n := NodeWith(g.nodes, id);
    n.Some? && n.value.kind == kind
  }

  lemma AscendingEmptyIff(s: set<Id>)
    ensures Ascending(s) == [] <==> s - {NoId} == {}
  {
    AscendingListsAll(s);
    if Ascending(s) == [] {
      forall x | x in s ensures x == NoId {
        assert x != NoId ==> x in Ascending(s);
      }
    } else {
      assert Ascending(s)[0] in Ascending(s);
      assert Ascending(s)[0] in s - {NoId};
    }
  }

  /** What the permissive variant does, the strict one does exactly when its guards are met. */
  lemma StrictlyAllowedIff(g: Graph, next: nat, op: Op)
    requires !op.Batch? && SingleOutcome(g, next, op, Repair).reply.Ok?
    ensures SingleOutcome(g, next, op, Strict).reply.Ok? <==> MeetsStrictGuard(g, op)
  {
    if op.DeleteNode? {
      AscendingEmptyIff(ChildrenOf(g.edges, op.nodeId));
      AscendingEmptyIff(ParentsOf(g.edges, op.nodeId));
    }
  }

  /** Each member meets its guard on the graph that the members before it lead to. */
  ghost predicate MembersMeetGuards(g: Graph, next: nat, ops: seq<Op>)
  {
    ops == [] ||
    (MembersMeetGuards(g, next, ops[..|ops| - 1]) &&
     MeetsStrictGuard(RunOps(g, next, ops[..|ops| - 1], Repair).graph, ops[|ops| - 1]))
  }

  /** A batch that runs in repair mode runs strictly exactly when its members meet their guards. */
  lemma {:induction false} StrictRunIff(g: Graph, next: nat, ops: seq<Op>)
    requires (forall o :: o in ops ==> !o.Batch?) && RunOps(g, next, ops, Repair).reply.Ok?
    ensures RunOps(g, next, ops, Strict).reply.Ok? <==> MembersMeetGuards(g, next, ops)
    decreases |ops|
  {
    if ops != [] {
      var init, op := ops[..|ops| - 1], ops[|ops| - 1];
      StrictRunIff(g, next, init);
      if MembersMeetGuards(g, next, init) {
        StrictRunIsPermissive(g, next, init);
        var before := RunOps(g, next, init, Repair);
        StrictlyAllowedIff(before.graph, before.next, op);
      }
    }
  }

  lemma RepairPlanRan(g: Graph, next: nat, op: Op)
    requires IsRepairBatch(op) && PlanCall(g, next, op).reply.Planned?
    ensures RunOps(g, next, op.ops, Repair).reply.Ok? && (forall o :: o in op.ops ==> !o.Batch?)
  {
    MembersAreSingle(op.ops);
  }

  /** Applying a plan runs its operations strictly. So a plan made in repair mode applies, with the same
      result again, when every member meets the strict guards. */
  lemma RepairPlanApplies(s: Stored, next: nat, op: Op, plan: Plan, env: Surroundings)
    requires IsRepairBatch(op) && PlanCall(s.graph, next, op).reply == Planned(plan)
    requires MembersMeetGuards(s.graph, next, op.ops)
    ensures ApplyPatchSet(s, next, plan, env) == Execute(s, next, op, env)
  {
    RepairPlanRan(s.graph, next, op);
    StrictRunIff(s.graph, next, op.ops);
    PlanCounts(s.graph, next, op);
    MembersAreSingle(op.ops);
    PlanAllIsRun(s.graph, next, op.ops, true);
    StrictRunIsPermissive(s.graph, next, op.ops);
  }

  /** When some member does not meet them the plan fails, with that member's error, and nothing is stored. */
  lemma RepairPlanFails(s: Stored, next: nat, op: Op, plan: Plan, env: Surroundings)
    requires IsRepairBatch(op) && PlanCall(s.graph, next, op).reply == Planned(plan)
    requires !MembersMeetGuards(s.graph, next, op.ops)
    ensures ApplyPatchSet(s, next, plan, env).0 == s && ApplyPatchSet(s, next, plan, env).2.Err?
    ensures ApplyPatchSet(s, next, plan, env).2 == RunOps(s.graph, next, op.ops, Strict).reply
  {
    RepairPlanRan(s.graph, next, op);
    StrictRunIff(s.graph, next, op.ops);
    PlanCounts(s.graph, next, op);
    MembersAreSingle(op.ops);
    PlanAllIsRun(s.graph, next, op.ops, true);
  }

  const TOP_ALONE := Graph([TOP_NODE], [])
  const MID_BELOW_TOP := AddNode("mid", MidEvent, "", Id(0))

  lemma TopAloneIsSound()
    ensures Sound(TOP_ALONE) && Issued(TOP_ALONE, 1)
  {
    assert ArcsOf([]) == {};
    EmptyIsAcyclic();
    assert TOP_ALONE.nodes[0].kind == TopEvent;
  }

  lemma EmptyIsAcyclic()
    ensures Acyclic({})
  {
  }

  lemma MidBelowTopNeedsRepair()
    ensures CheckedOutcome(TOP_ALONE, 1, MID_BELOW_TOP, Repair).reply.Ok?
    ensures !MeetsStrictGuard(TOP_ALONE, MID_BELOW_TOP)
  {
    assert Position(TOP_ALONE.nodes, Id(0)) == Some(0);
    assert NodeWith(TOP_ALONE.nodes, Id(0)) == Some(TOP_NODE);
  }

  lemma RunOne(g: Graph, next: nat, op: Op, mode: Mode)
    ensures CheckedOutcome(g, next, op, mode).reply.Ok? <==> RunOps(g, next, [op], mode).reply.Ok?
    ensures RunOps(g, next, [op][..0], mode) == Outcome(g, next, Ok(NO_CHANGE))
  {
    assert [op][..0] == [];
    assert RunOps(g, next, [], mode) == Outcome(g, next, Ok(NO_CHANGE));
  }

  lemma RefuseOne(op: Op)
    requires SingleRefusal(op).None?
    ensures FirstBatchRefusal([op]).None?
  {
    assert [op][..0] == [];
  }

  /** A concrete repair plan that cannot be applied: an event added right below the top event is
      allowed by the permissive engine only. */
  lemma RepairPlanRefused(revision: nat, env: Surroundings)
    ensures var s, op := Stored(TOP_ALONE, revision, 1, 0), Batch([MID_BELOW_TOP], true);
            PlanCall(s.graph, 1, op).reply.Planned? &&
            ApplyPatchSet(s, 1, PlanCall(s.graph, 1, op).reply.plan, env).2.Err?
  {
    var s, op := Stored(TOP_ALONE, revision, 1, 0), Batch([MID_BELOW_TOP], true);
    TopAloneIsSound();
    MidBelowTopNeedsRepair();
    RunOne(TOP_ALONE, 1, MID_BELOW_TOP, Repair);
    RefuseOne(MID_BELOW_TOP);
    RepairGateNeverRejects(TOP_ALONE, 1, op);
    assert PlanCall(s.graph, 1, op).reply.Planned?;
    assert op.ops[..0] == [MID_BELOW_TOP][..0];
    RepairPlanFails(s, 1, op, PlanCall(s.graph, 1, op).reply.plan, env);
  }
}
