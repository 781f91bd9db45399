/** What each operation accepts and what it does to single rows and to the reported patch, in terms of the
    request alone. */
module OperationRows {
  import opened Basics
  import opened Reachability
  import opened FaultTree
  import opened Sorting
  import opened Traversal
  import opened Edits
  import opened GraphEffects
  import opened Restructuring

  ghost predicate KindIs(g: Graph, id: Id, kind: NodeKind)
  {
    exists n :: n in g.nodes && n.id == id && n.kind == kind
  }

  lemma KindFound(g: Graph, id: Id, kind: NodeKind)
    requires Keyed(g)
    ensures KindIs(g, id, kind) <==> NodeWith(g.nodes, id).Some? && NodeWith(g.nodes, id).value.kind == kind
    ensures HasNode(g.nodes, id) <==> NodeWith(g.nodes, id).Some?
  {
    NodeWithExact(g.nodes, id);
  }

  /** A failing operation leaves the graph alone. */
  lemma FailureKeepsGraph(g: Graph, next: nat, op: Op, mode: Mode)
    requires !op.Batch?
    ensures SingleOutcome(g, next, op, mode).reply.Err? ==> SingleOutcome(g, next, op, mode).graph == g
  {
  }

  // ---------- update_node ----------

  lemma UpdateNodeAcceptedIff(g: Graph, next: nat, op: Op, mode: Mode)
    requires Keyed(g) && op.UpdateNode?
    ensures SingleOutcome(g, next, op, mode).reply.Ok? <==> HasNode(g.nodes, op.nodeId) && op.name != Some("")
    ensures !HasNode(g.nodes, op.nodeId) ==> SingleOutcome(g, next, op, mode).reply == Err(NodeNotFound)
  {
    NodeWithExact(g.nodes, op.nodeId);
  }

  /** A given text replaces the old one, an empty one clears it, a missing one keeps it. */
  predicate TextSet(field: Option<string>, before: Option<string>, after: Option<string>)
  {
    match field
    case None => after == before
    case Some(value) => if value == "" then after.None? else after == Some(value)
  }

  /** The node gets the given fields and keeps all others, and no other row changes. */
  lemma UpdateNodeRows(g: Graph, next: nat, op: Op, mode: Mode, i: nat)
    requires Keyed(g) && op.UpdateNode? && i < |g.nodes|
    ensures SingleOutcome(g, next, op, mode).reply.Ok? ==>
      var g' := SingleOutcome(g, next, op, mode).graph;
            && g'.edges == g.edges && |g'.nodes| == |g.nodes|
            && (g.nodes[i].id != op.nodeId ==> g'.nodes[i] == g.nodes[i])
            && (g.nodes[i].id == op.nodeId ==>
                  && g'.nodes[i].id == op.nodeId && g'.nodes[i].kind == g.nodes[i].kind &&
                    g'.nodes[i].gate == g.nodes[i].gate
                  && g'.nodes[i].name == (if op.name.Some? then op.name.value else g.nodes[i].name)
                  && TextSet(op.description, g.nodes[i].description, g'.nodes[i].description)
                  && TextSet(op.investigation, g.nodes[i].investigation, g'.nodes[i].investigation))
  {
    assert g.nodes[i] in g.nodes;
    NodeWithExact(g.nodes, op.nodeId);
  }

  /** The patch names the node and exactly the given fields; without a field it is empty. */
  lemma UpdateNodePatch(g: Graph, next: nat, op: Op, mode: Mode)
    requires op.UpdateNode?
    ensures SingleOutcome(g, next, op, mode).reply.Ok? ==>
      var r, given := SingleOutcome(g, next, op, mode).reply.result,
                            op.name.Some? || op.description.Some? || op.investigation.Some?;
            && r.patch.deleteNodes == [] && r.patch.upsertEdges == [] && r.patch.deleteEdges == [] &&
              r.changedEdges == 0
            && (given ==> r.changedNodes == 1 && |r.patch.upsertNodes| == 1
                          && var u := r.patch.upsertNodes[0];
                             u.id == op.nodeId && u.kind.None? && u.gate.None? && u.name == op.name
                             && u.description == op.description && u.investigation == op.investigation)
            && (!given ==> r.changedNodes == 0 && r.patch.upsertNodes == [])
  {
  }

  // ---------- update_gate ----------

  lemma UpdateGateAcceptedIff(g: Graph, next: nat, op: Op, mode: Mode)
    requires Keyed(g) && op.UpdateGate?
    ensures SingleOutcome(g, next, op, mode).reply.Ok? <==> op.gate.Some? && KindIs(g, op.nodeId, Gate)
    ensures op.gate.Some? && HasNode(g.nodes, op.nodeId) && !KindIs(g, op.nodeId, Gate) ==>
      SingleOutcome(g, next, op, mode).reply == Err(OperationNotAllowed)
  {
    KindFound(g, op.nodeId, Gate);
  }

  /** Only the gate type of the one row changes, and the patch says so, unless it was that type already. */
  lemma UpdateGateRows(g: Graph, next: nat, op: Op, mode: Mode, i: nat)
    requires Keyed(g) && op.UpdateGate? && i < |g.nodes|
    ensures SingleOutcome(g, next, op, mode).reply.Ok? ==>
      var g', r := SingleOutcome(g, next, op, mode).graph, SingleOutcome(g, next, op, mode).reply.result;
            && g'.edges == g.edges && |g'.nodes| == |g.nodes|
            && (g.nodes[i].id != op.nodeId ==> g'.nodes[i] == g.nodes[i])
            && (g.nodes[i].id == op.nodeId ==>
                  && g'.nodes[i] == Node(op.nodeId, g.nodes[i].kind, op.gate, g.nodes[i].name, g.nodes[i].description,
                                         g.nodes[i].investigation)
                  && (g.nodes[i].gate == op.gate ==> r.patch.upsertNodes == [] && r.changedNodes == 0)
                  && (g.nodes[i].gate != op.gate ==>
                        && r.changedNodes == 1 && |r.patch.upsertNodes| == 1
                        && r.patch.upsertNodes[0].id == op.nodeId && r.patch.upsertNodes[0].gate == op.gate))
  {
    assert g.nodes[i] in g.nodes;
    NodeWithExact(g.nodes, op.nodeId);
  }

  // ---------- add_node ----------

  /** A first top event alone; any other event below a node that is no basic event, strictly below a gate. */
  ghost predicate MayAddNode(g: Graph, op: Op, mode: Mode)
    requires op.AddNode?
  {
    && op.newName != "" && op.kind in {TopEvent, MidEvent, BasicEvent}
    && (op.kind == TopEvent ==> g.nodes == [] && op.parent == NoId)
    && (op.kind != TopEvent ==>
          && op.parent != NoId && HasNode(g.nodes, op.parent) && !KindIs(g, op.parent, BasicEvent)
          && (mode == Strict ==> KindIs(g, op.parent, Gate)))
  }

  lemma AddNodeAcceptedIff(g: Graph, next: nat, op: Op, mode: Mode)
    requires Keyed(g) && op.AddNode?
    ensures SingleOutcome(g, next, op, mode).reply.Ok? <==> MayAddNode(g, op, mode)
  {
    KindFound(g, op.parent, BasicEvent);
    KindFound(g, op.parent, Gate);
  }

  /** One row with the requested kind, name and description and a fresh identifier; and one edge to it from
      the parent, if there is one. Everything else stays. */
  lemma AddNodeRows(g: Graph, next: nat, op: Op, mode: Mode)
    requires Keyed(g) && Issued(g, next) && op.AddNode?
    ensures SingleOutcome(g, next, op, mode).reply.Ok? ==>
      var g' := SingleOutcome(g, next, op, mode).graph;
            && |g'.nodes| == |g.nodes| + 1 && g'.nodes[..|g.nodes|] == g.nodes
            && var n := g'.nodes[|g.nodes|];
               && n.id == Id(next) && n.kind == op.kind && n.gate.None? && n.name == op.newName && n.investigation.None?
               && n.description == (if op.newDescription == "" then None else Some(op.newDescription))
    ensures SingleOutcome(g, next, op, mode).reply.Ok? ==>
      var g' := SingleOutcome(g, next, op, mode).graph;
            g'.edges == if op.parent == NoId then g.edges else g.edges + [Edge(Id(next + 1), op.parent, Id(next))]
  {
    ConnectOne(g.edges, next + 1, Arc(op.parent, Id(next)));
    assert !Joins(g.edges, op.parent, Id(next));
  }

  /** The patch carries exactly that row and that edge. */
  lemma AddNodePatch(g: Graph, next: nat, op: Op, mode: Mode)
    requires op.AddNode?
    ensures SingleOutcome(g, next, op, mode).reply.Ok? ==>
      var r := SingleOutcome(g, next, op, mode).reply.result;
            && r.patch.deleteNodes == [] && r.patch.deleteEdges == [] && r.changedNodes == 1 &&
              |r.patch.upsertNodes| == 1
            && var u := r.patch.upsertNodes[0];
               && u.id == Id(next) && u.kind == Some(op.kind) && u.gate.None? && u.name == Some(op.newName)
               && u.description == (if op.newDescription == "" then None else Some(op.newDescription))
               && u.investigation.None?
    ensures SingleOutcome(g, next, op, mode).reply.Ok? ==>
      var r := SingleOutcome(g, next, op, mode).reply.result;
            && r.patch.upsertEdges == (if op.parent == NoId then [] else [Edge(Id(next + 1), op.parent, Id(next))])
            && r.changedEdges == (if op.parent == NoId then 0 else 1)
  {
  }

  // ---------- add_gate ----------

  /** Children that hang below the parent and are no top events: one for NOT, else at least two distinct ones
      (one is enough in repair mode). */
  ghost predicate MayAddGate(g: Graph, op: Op, mode: Mode)
    requires op.AddGate?
  {
    && op.gate.Some? && HasNode(g.nodes, op.parent) && !KindIs(g, op.parent, BasicEvent)
    && (forall c :: c in op.childIds && c != NoId ==>
          && c != op.parent && HasNode(g.nodes, c) && !KindIs(g, c, TopEvent)
          && exists e :: e in g.edges && e.from == op.parent && e.to == c)
    && var count := |ChildSet(op)|;
       if op.gate == Some(Not) then count == 1 else count >= (if mode == Strict then 2 else 1)
  }

  lemma {:induction false} DistinctCount(ids: seq<Id>)
    ensures |Distinct(ids)| == |set c | c in ids && c != NoId|
    decreases |ids|
  {
    if ids != [] {
      var init, last := ids[..|ids| - 1], ids[|ids| - 1];
      DistinctCount(init);
      DistinctMembers(init);
      assert ids == init + [last];
      var before, after := set c | c in init && c != NoId, set c | c in ids && c != NoId;
      assert after == if last == NoId then before else before + {last};
    }
  }

  lemma ChildFits(g: Graph, parent: Id, child: Id)
    requires Keyed(g) && child != NoId
    ensures ChildRefusal(g, parent, child).None? <==>
            && child != parent && HasNode(g.nodes, child) && !KindIs(g, child, TopEvent)
            && exists e :: e in g.edges && e.from == parent && e.to == child
  {
    KindFound(g, child, TopEvent);
  }

  lemma {:induction false} ChildrenFit(g: Graph, parent: Id, children: seq<Id>)
    requires Keyed(g)
    ensures FirstRefusal(g, parent, children).None? <==> forall c :: c in children ==> ChildRefusal(g, parent, c).None?
    decreases |children|
  {
    if children != [] {
      ChildrenFit(g, parent, children[..|children| - 1]);
      assert children == children[..|children| - 1] + [children[|children| - 1]];
    }
  }

  lemma AddGateAcceptedIff(g: Graph, next: nat, op: Op, mode: Mode)
    requires Keyed(g) && op.AddGate?
    ensures SingleOutcome(g, next, op, mode).reply.Ok? <==> MayAddGate(g, op, mode)
  {
    KindFound(g, op.parent, BasicEvent);
    ChildrenFit(g, op.parent, op.childIds);
    forall c | c in op.childIds && c != NoId
      ensures ChildRefusal(g, op.parent, c).None? <==>
              && c != op.parent && HasNode(g.nodes, c) && !KindIs(g, c, TopEvent)
              && exists e :: e in g.edges && e.from == op.parent && e.to == c
    {
      ChildFits(g, op.parent, c);
    }
    DistinctCount(op.childIds);
    assert ChildSet(op) == set c | c in op.childIds && c != NoId;
  }

  /** One row: a gate of the requested type, named after it, with a fresh identifier. All old rows stay. */
  lemma AddGateRows(g: Graph, next: nat, op: Op, mode: Mode)
    requires op.AddGate?
    ensures SingleOutcome(g, next, op, mode).reply.Ok? ==>
      var g' := SingleOutcome(g, next, op, mode).graph;
            && |g'.nodes| == |g.nodes| + 1 && g'.nodes[..|g.nodes|] == g.nodes
            && var n := g'.nodes[|g.nodes|];
               && n.id == Id(next) && n.kind == Gate && n.gate == op.gate && n.description.None? &&
                 n.investigation.None?
               && (op.gate == Some(And) ==> n.name == "AND") && (op.gate == Some(Or) ==> n.name == "OR")
               && (op.gate == Some(Not) ==> n.name == "NOT")
  {
  }

  /** The patch carries exactly that row; the edges it deletes and adds are counted. */
  lemma AddGatePatch(g: Graph, next: nat, op: Op, mode: Mode)
    requires op.AddGate?
    ensures SingleOutcome(g, next, op, mode).reply.Ok? ==>
      var r := SingleOutcome(g, next, op, mode).reply.result;
            && r.patch.deleteNodes == [] && r.changedNodes == 1 && |r.patch.upsertNodes| == 1
            && r.changedEdges == |r.patch.upsertEdges| + |r.patch.deleteEdges|
            && var u := r.patch.upsertNodes[0];
               && u.id == Id(next) && u.kind == Some(Gate) && u.gate == op.gate && u.description.None? &&
                 u.investigation.None?
               && (op.gate == Some(And) ==> u.name == Some("AND")) && (op.gate == Some(Or) ==> u.name == Some("OR"))
               && (op.gate == Some(Not) ==> u.name == Some("NOT"))
  {
  }

  /** The edges from the parent to a requested child. */
  predicate Rewired(op: Op, e: Edge)
    requires op.AddGate?
  {
    e.from == op.parent && e.to in op.childIds && e.to != NoId
  }

  lemma RewiredAreCut(g: Graph, op: Op, e: Edge)
    requires op.AddGate?
    ensures var cut := EdgesFromTo(g.edges, op.parent, set c | c in Distinct(op.childIds));
            e in Without(g.edges, cut) <==> e in g.edges && !Rewired(op, e)
  {
    DistinctMembers(op.childIds);
    WithoutMembers(g.edges, EdgesFromTo(g.edges, op.parent, set c | c in Distinct(op.childIds)));
  }

  lemma AddedByGate(kept: seq<Edge>, next: nat, op: Op, e: Edge)
    requires op.AddGate?
    ensures var arcs := [Arc(op.parent, Id(next))] + Fan(Id(next), Distinct(op.childIds));
            var edges := Connect(kept, next + 1, arcs).0;
            && (e in kept ==> e in edges)
            && (e in edges && e !in kept ==>
                  && e.id.Id? && e.id.serial > next
                  && ((e.from == op.parent && e.to == Id(next)) ||
                    (e.from == Id(next) && e.to in op.childIds && e.to != NoId)))
  {
    var arcs := [Arc(op.parent, Id(next))] + Fan(Id(next), Distinct(op.childIds));
    ConnectAppends(kept, next + 1, arcs);
    FanMembers(op.parent, Id(next), Distinct(op.childIds));
    DistinctMembers(op.childIds);
  }

  /** Of the old edges exactly those from the parent to a requested child go; every new edge has a fresh
      identifier and joins parent and gate or gate and child. */
  lemma AddGateEdges(g: Graph, next: nat, op: Op, mode: Mode, e: Edge)
    requires Issued(g, next) && op.AddGate?
    ensures SingleOutcome(g, next, op, mode).reply.Ok? ==>
      var edges := SingleOutcome(g, next, op, mode).graph.edges;
            && (e in g.edges ==> (e in edges <==> !Rewired(op, e)))
            && (e in edges && e !in g.edges ==>
                  && e.id.Id? && e.id.serial > next
                  && ((e.from == op.parent && e.to == Id(next)) ||
                    (e.from == Id(next) && e.to in op.childIds && e.to != NoId)))
  {
    RewiredAreCut(g, op, e);
    AddedByGate(Without(g.edges, EdgesFromTo(g.edges, op.parent, set c | c in Distinct(op.childIds))), next, op, e);
    assert e in g.edges ==> Under(e.id, next);
  }

  // ---------- delete_node ----------

  lemma DeleteAcceptedIff(g: Graph, next: nat, op: Op, mode: Mode)
    requires Keyed(g) && op.DeleteNode?
    ensures SingleOutcome(g, next, op, mode).reply.Ok? <==>
            && HasNode(g.nodes, op.nodeId) && !KindIs(g, op.nodeId, TopEvent)
            && (mode == Strict && !op.deleteChildren ==>
                  (exists e :: e in g.edges && e.from == op.nodeId && e.to != NoId) ==>
                  exists e :: e in g.edges && e.to == op.nodeId && e.from != NoId)
  {
    KindFound(g, op.nodeId, TopEvent);
    AscendingListsAll(ChildrenOf(g.edges, op.nodeId));
    AscendingListsAll(ParentsOf(g.edges, op.nodeId));
    Witnessed(Ascending(ChildrenOf(g.edges, op.nodeId)));
    Witnessed(Ascending(ParentsOf(g.edges, op.nodeId)));
    assert (exists e :: e in g.edges && e.from == op.nodeId && e.to != NoId) <==>
           exists c :: c in ChildrenOf(g.edges, op.nodeId) && c != NoId by {
      forall e | e in g.edges && e.from == op.nodeId ensures e.to in ChildrenOf(g.edges, op.nodeId) {
      }
    }
    assert (exists e :: e in g.edges && e.to == op.nodeId && e.from != NoId) <==>
           exists c :: c in ParentsOf(g.edges, op.nodeId) && c != NoId by {
      forall e | e in g.edges && e.to == op.nodeId ensures e.from in ParentsOf(g.edges, op.nodeId) {
      }
    }
  }

  lemma Witnessed(ids: seq<Id>)
    ensures ids != [] <==> exists x :: x in ids
  {
    if ids != [] {
      assert ids[0] in ids;
    }
  }

  /** Edges that touch no deleted node stay as they are; the patch lists exactly the rows that went and the
      edges that came, and the counts are theirs. */
  lemma DeleteRows(g: Graph, next: nat, op: Op, mode: Mode, e: Edge)
    requires op.DeleteNode?
    ensures SingleOutcome(g, next, op, mode).reply.Ok? ==>
      var done := SingleOutcome(g, next, op, mode);
            && (e in g.edges && e.from !in Doomed(g, op) && e.to !in Doomed(g, op) ==> e in done.graph.edges)
            && done.reply.result.patch.upsertNodes == []
            && done.reply.result.changedNodes == |done.reply.result.patch.deleteNodes|
            && done.reply.result.changedEdges == |done.reply.result.patch.upsertEdges|
              + |done.reply.result.patch.deleteEdges|
            && (op.deleteChildren ==> done.reply.result.patch.upsertEdges == [])
  {
    var doomed := Doomed(g, op);
    WithoutMembers(g.edges, EdgesTouching(g.edges, doomed));
    ConnectAppends(RemoveNodes(g, doomed).edges, next, SpliceArcs(g, op));
  }

  // ---------- move_node ----------

  lemma MoveAcceptedIff(g: Graph, next: nat, op: Op, mode: Mode)
    requires Keyed(g) && op.MoveNode?
    ensures SingleOutcome(g, next, op, mode).reply.Ok? <==>
            && op.nodeId != NoId && op.newParent != NoId && op.nodeId != op.newParent
            && HasNode(g.nodes, op.nodeId) && HasNode(g.nodes, op.newParent)
            && !KindIs(g, op.nodeId, TopEvent) && !KindIs(g, op.newParent, BasicEvent)
            && (mode == Strict ==> KindIs(g, op.newParent, Gate) || KindIs(g, op.nodeId, Gate))
            && !Reaches(ArcsOf(g.edges), op.nodeId, op.newParent)
  {
    KindFound(g, op.nodeId, TopEvent);
    KindFound(g, op.nodeId, Gate);
    KindFound(g, op.newParent, BasicEvent);
    KindFound(g, op.newParent, Gate);
    DescendantsExact(g.edges, op.nodeId, op.newParent);
  }

  /** Moving touches no node; the patch lists the edges that went and the one that came. */
  lemma MoveRows(g: Graph, next: nat, op: Op, mode: Mode)
    requires op.MoveNode?
    ensures SingleOutcome(g, next, op, mode).reply.Ok? ==>
      var done := SingleOutcome(g, next, op, mode);
            && done.graph.nodes == g.nodes
            && done.reply.result.patch.upsertNodes == [] && done.reply.result.patch.deleteNodes == []
            && done.reply.result.patch.upsertEdges == [Edge(Id(next), op.newParent, op.nodeId)]
            && done.reply.result.changedNodes == 1
            && done.reply.result.changedEdges == 1 + |done.reply.result.patch.deleteEdges|
  {
    var kept := Without(g.edges, EdgesInto(g.edges, op.nodeId));
    WithoutMembers(g.edges, EdgesInto(g.edges, op.nodeId));
    ConnectOne(kept, next, Arc(op.newParent, op.nodeId));
    assert !Joins(kept, op.newParent, op.nodeId);
  }

  // ---------- reads ----------

  /** A read or validate tool fails only on a node that is not there; other tools always fail. */
  lemma ReadAcceptedIff(g: Graph, next: nat, op: Op, mode: Mode)
    requires op.GetGraphSnapshot? || op.GetNodeDetail? || op.GetSubtree? || op.CheckGateSemantics?
             || op.ValidateConstraints? || op.OtherTool? || op.UnregisteredTool?
    ensures SingleOutcome(g, next, op, mode).graph == g && SingleOutcome(g, next, op, mode).next == next
    ensures SingleOutcome(g, next, op, mode).reply.Ok? <==>
            || op.GetGraphSnapshot? || op.ValidateConstraints?
            || ((op.GetNodeDetail? || op.GetSubtree?) && HasNode(g.nodes, op.nodeId))
            || (op.CheckGateSemantics? && (op.nodeId == NoId || HasNode(g.nodes, op.nodeId)))
  {
    if op.GetNodeDetail? || op.GetSubtree? || op.CheckGateSemantics? {
      PositionComplete(g.nodes, op.nodeId);
    }
  }

  // ---------- runs ----------

  function Moves(ops: seq<Op>): nat
  {
    if ops == [] then 0 else Moves(ops[..|ops| - 1]) + if ops[|ops| - 1].MoveNode? then 1 else 0
  }

  lemma OperationCounts(g: Graph, next: nat, op: Op, mode: Mode)
    requires !op.Batch?
    ensures SingleOutcome(g, next, op, mode).reply.Ok? ==>
      var r := SingleOutcome(g, next, op, mode).reply.result;
            && r.changedNodes == |r.patch.upsertNodes| + |r.patch.deleteNodes| + (if op.MoveNode? then 1 else 0)
            && r.changedEdges == |r.patch.upsertEdges| + |r.patch.deleteEdges|
  {
  }

  /** The counts a batch reports are those of its patch, plus one node for every move. */
  lemma {:induction false} RunCounts(g: Graph, next: nat, ops: seq<Op>, mode: Mode)
    ensures RunOps(g, next, ops, mode).reply.Ok? ==>
            var r := RunOps(g, next, ops, mode).reply.result;
            && r.changedNodes == |r.patch.upsertNodes| + |r.patch.deleteNodes| + Moves(ops)
            && r.changedEdges == |r.patch.upsertEdges| + |r.patch.deleteEdges|
    decreases |ops|
  {
    if ops != [] && RunOps(g, next, ops, mode).reply.Ok? {
      var before := RunOps(g, next, ops[..|ops| - 1], mode);
      RunCounts(g, next, ops[..|ops| - 1], mode);
      OperationCounts(before.graph, before.next, ops[|ops| - 1], mode);
    }
  }

  /** A batch is refused before anything is applied exactly when it is empty, has more than 50 members, or
      has a member that is a batch or is refused itself. */
  lemma {:induction false} BatchRefusedIff(ops: seq<Op>, repairMode: bool)
    ensures Refusal(Batch(ops, repairMode)).None? <==>
            0 < |ops| <= 50 && forall o :: o in ops ==> !o.Batch? && SingleRefusal(o).None?
  {
    MembersRefusedIff(ops);
  }

  lemma {:induction false} MembersRefusedIff(ops: seq<Op>)
    ensures FirstBatchRefusal(ops).None? <==> forall o :: o in ops ==> !o.Batch? && SingleRefusal(o).None?
    decreases |ops|
  {
    if ops != [] {
      MembersRefusedIff(ops[..|ops| - 1]);
      assert ops == ops[..|ops| - 1] + [ops[|ops| - 1]];
    }
  }

  ghost predicate SomeChild(children: seq<Id>)
  {
    exists c :: c in children && c != NoId
  }

  /** Which single calls the parameter check lets through. */
  lemma ParametersAcceptedIff(op: Op)
    ensures SingleRefusal(op).None? <==>
            match op
            case UpdateNode(id, name, _, _) => id != NoId && name != Some("")
            case UpdateGate(id, gate) => id != NoId && gate.Some?
            case AddNode(name, kind, _, _) => name != "" && kind in {TopEvent, MidEvent, BasicEvent}
            case AddGate(gate, parent, children) => gate.Some? && parent != NoId && SomeChild(children)
            case DeleteNode(id, _) => id != NoId
            case MoveNode(id, parent) => id != NoId && parent != NoId
            case GetGraphSnapshot(nodes, edges) => (nodes.Some? ==> nodes.value > 0) &&
              (edges.Some? ==> edges.value > 0)
            case GetNodeDetail(id) => id != NoId
            case GetSubtree(id, depth) => id != NoId && (depth.Some? ==> 1 <= depth.value <= 8)
            case CheckGateSemantics(_) => true
            case ValidateConstraints => true
            case OtherTool(complete) => complete
            case UnregisteredTool => false
            case Batch(_, _) => false
  {
    if op.AddGate? {
      DistinctMembers(op.childIds);
      Witnessed(Distinct(op.childIds));
    }
  }
}
