/** The edit engine: each apply operation works on the state in place and is proved equal to its
    outcome function. The strict and the permissive variant of an operation differ only in the
    checks that mode selects. */
module Engine {
  import opened Basics
  import opened Reachability
  import opened FaultTree
  import opened Sorting
  import opened Traversal
  import opened Edits
  import opened TreeState

  method ApplyUpdateNode(state: FaultTreeState, ids: IdSupply, op: Op) returns (reply: Reply)
    requires state.Valid() && op.UpdateNode?
    modifies state
    ensures state.Valid()
    ensures Outcome(state.View(), ids.next, reply) == UpdateNodeOutcome(old(state.View()), ids.next, op)
  {
    var at := state.GetNode(op.nodeId);
    if at.None? {
      return Err(NodeNotFound);
    }
    var node := state.nodes[at.value];
    var id, changes := node.id, 0;
    if op.name.Some? {
      if op.name.value == "" {
        return Err(InvalidParameters);
      }
      node := node.(name := op.name.value);
      changes := changes + 1;
    }
    if op.description.Some? {
      node := node.(description := TextField(op.description.value));
      changes := changes + 1;
    }
    if op.investigation.Some? {
      node := node.(investigation := TextField(op.investigation.value));
      changes := changes + 1;
    }
    if changes == 0 {
      return Ok(NO_CHANGE);
    }
    state.SetNode(at.value, node);
    var changed := NodePatch(id, None, None, op.name, op.description, op.investigation);
    reply := Ok(OpResult(Patch([changed], [], [], []), 1, 0));
  }

  method ApplyUpdateGate(state: FaultTreeState, ids: IdSupply, op: Op) returns (reply: Reply)
    requires state.Valid() && op.UpdateGate?
    modifies state
    ensures state.Valid()
    ensures Outcome(state.View(), ids.next, reply) == UpdateGateOutcome(old(state.View()), ids.next, op)
  {
    if op.gate.None? {
      return Err(InvalidParameters);
    }
    var at := state.GetNode(op.nodeId);
    if at.None? {
      return Err(NodeNotFound);
    }
    var node := state.nodes[at.value];
    if node.kind != Gate {
      return Err(OperationNotAllowed);
    }
    if node.gate == op.gate {
      return Ok(NO_CHANGE);
    }
    state.SetNode(at.value, node.(gate := op.gate));
    var changed := NodePatch(node.id, Some(node.kind), op.gate, Some(node.name), None, None);
    reply := Ok(OpResult(Patch([changed], [], [], []), 1, 0));
  }

  method ApplyAddNode(state: FaultTreeState, ids: IdSupply, op: Op, mode: Mode) returns (reply: Reply)
    requires state.Valid() && op.AddNode?
    modifies state, ids
    ensures state.Valid()
    ensures Outcome(state.View(), ids.next, reply) == AddNodeOutcome(old(state.View()), old(ids.next), op, mode)
  {
    if op.newName == "" {
      return Err(InvalidParameters);
    }
    match mode {
      case Strict =>
        if op.kind == OtherKind {
          return Err(InvalidParameters);
        }
        if op.kind == Gate {
          return Err(OperationNotAllowed);
        }
      case Repair =>
        if op.kind == OtherKind || op.kind == Gate {
          return Err(InvalidParameters);
        }
    }
    if op.kind == TopEvent {
      if |state.nodes| > 0 || op.parent != NoId {
        return Err(OperationNotAllowed);
      }
    } else if op.parent == NoId {
      return Err(InvalidParameters);
    }
    reply := InsertNode(state, ids, op, mode);
  }

  /** Draws the identifier, checks the parent, and adds the node with its edge. */
  method InsertNode(state: FaultTreeState, ids: IdSupply, op: Op, mode: Mode) returns (reply: Reply)
    requires state.Valid() && op.AddNode? && AddNodeRefusal(state.View(), op, mode).None?
    modifies state, ids
    ensures state.Valid()
    ensures Outcome(state.View(), ids.next, reply) == AddNodeOutcome(old(state.View()), old(ids.next), op, mode)
  {
    var nodeId := ids.NewId();
    var node := Node(nodeId, op.kind, None, op.newName, TextField(op.newDescription), None);
    if op.parent != NoId {
      var at := state.GetNode(op.parent);
      if at.None? {
        return Err(NodeNotFound);
      }
      var parent := state.nodes[at.value];
      if parent.kind == BasicEvent || (mode == Strict && parent.kind != Gate) {
        return Err(OperationNotAllowed);
      }
    }
    if op.parent == NoId {
      state.AddNode(node);
      return Ok(OpResult(Patch([NewNodePatch(node)], [], [], []), 1, 0));
    }
    var edge := AppendLeaf(state, ids, node, op.parent);
    reply := Ok(OpResult(Patch([NewNodePatch(node)], [], [edge], []), 1, 1));
  }

  method AppendLeaf(state: FaultTreeState, ids: IdSupply, node: Node, parent: Id) returns (edge: Edge)
    requires state.Valid()
    modifies state, ids
    ensures state.Valid() && ids.next == old(ids.next) + 1 && edge == Edge(Id(old(ids.next)), parent, node.id)
    ensures state.View() == Graph(old(state.nodes) + [node],
                                  Connect(old(state.edges), old(ids.next), [Arc(parent, node.id)]).0)
  {
    state.AddNode(node);
    var edgeId := ids.NewId();
    edge := Edge(edgeId, parent, node.id);
    ConnectOne(state.edges, edgeId.serial, Arc(parent, node.id));
    var _ := state.AddEdge(edge);
  }

  /** The child list of add_gate: refusals in request order, blanks and repeats dropped. */
  method OrderChildren(state: FaultTreeState, op: Op) returns (refused: Option<Error>, ordered: seq<Id>)
    requires state.Valid() && op.AddGate?
    ensures refused == FirstRefusal(state.View(), op.parent, op.childIds)
    ensures refused.None? ==> ordered == Distinct(op.childIds)
  {
    ordered := [];
    for i := 0 to |op.childIds|
      invariant FirstRefusal(state.View(), op.parent, op.childIds[..i]).None?
      invariant ordered == Distinct(op.childIds[..i])
      invariant forall c :: c in ordered ==> ChildRefusal(state.View(), op.parent, c).None?
    {
      var child := op.childIds[i];
      assert op.childIds[..i + 1][..i] == op.childIds[..i];
      if child == NoId || child in ordered {
        continue;
      }
      refused := RefuseChild(state, op.parent, child);
      if refused.Some? {
        RefusalStands(state.View(), op.parent, op.childIds, i + 1);
        return;
      }
      ordered := ordered + [child];
    }
    assert op.childIds[..|op.childIds|] == op.childIds;
    refused := None;
  }

  method RefuseChild(state: FaultTreeState, parent: Id, child: Id) returns (refused: Option<Error>)
    requires state.Valid() && child != NoId
    ensures refused == ChildRefusal(state.View(), parent, child)
  {
    if child == parent {
      return Some(InvalidParameters);
    }
    var at := state.GetNode(child);
    if at.None? {
      return Some(NodeNotFound);
    }
    if state.nodes[at.value].kind == TopEvent {
      return Some(OperationNotAllowed);
    }
    var edge := state.FindEdgeId(parent, child);
    refused := if edge.None? then Some(OperationNotAllowed) else None;
  }

  lemma {:induction false} RefusalStands(g: Graph, parent: Id, children: seq<Id>, n: nat)
    requires n <= |children| && FirstRefusal(g, parent, children[..n]).Some?
    ensures FirstRefusal(g, parent, children) == FirstRefusal(g, parent, children[..n])
    decreases |children|
  {
    if n < |children| {
      var init := children[..|children| - 1];
      assert init[..n] == children[..n];
      RefusalStands(g, parent, init, n);
    } else {
      assert children[..n] == children;
    }
  }

  method ApplyAddGate(state: FaultTreeState, ids: IdSupply, op: Op, mode: Mode) returns (reply: Reply)
    requires state.Valid() && op.AddGate?
    modifies state, ids
    ensures state.Valid()
    ensures Outcome(state.View(), ids.next, reply) == AddGateOutcome(old(state.View()), old(ids.next), op, mode)
  {
    if op.gate.None? {
      return Err(InvalidParameters);
    }
    var at := state.GetNode(op.parent);
    if at.None? {
      return Err(NodeNotFound);
    }
    if state.nodes[at.value].kind == BasicEvent {
      return Err(OperationNotAllowed);
    }
    if |op.childIds| == 0 {
      return Err(InvalidParameters);
    }
    var refused, ordered := OrderChildren(state, op);
    if refused.Some? {
      return Err(refused.value);
    }
    if op.gate == Some(Not) {
      if |ordered| != 1 {
        return Err(InvalidParameters);
      }
    } else if |ordered| < (match mode case Strict => 2 case Repair => 1) {
      return Err(InvalidParameters);
    }
    reply := InsertGate(state, ids, op, ordered);
  }

  /** Adds the gate, takes the children away from the parent, and connects parent, gate and children. */
  method InsertGate(state: FaultTreeState, ids: IdSupply, op: Op, ordered: seq<Id>) returns (reply: Reply)
    requires state.Valid() && op.AddGate? && ordered == Distinct(op.childIds)
    modifies state, ids
    ensures state.Valid()
    ensures Outcome(state.View(), ids.next, reply) == GateInserted(old(state.View()), old(ids.next), op)
  {
    var gateId := ids.NewId();
    var gateNode := Node(gateId, Gate, op.gate, GateName(op.gate), None, None);
    state.AddNode(gateNode);
    var deleted := state.RemoveEdgesByFromTo(op.parent, set c | c in ordered);
    var added := ConnectAll(state, ids, [Arc(op.parent, gateId)] + Fan(gateId, ordered));
    var patch := Patch([NewNodePatch(gateNode)], [], added, deleted);
    reply := Ok(OpResult(patch, 1, |patch.upsertEdges| + |patch.deleteEdges|));
  }

  /** Adds one new edge per arc and lists the edges that were really added. */
  method ConnectAll(state: FaultTreeState, ids: IdSupply, arcs: seq<Arc>) returns (added: seq<Edge>)
    requires state.Valid()
    modifies state`edges, ids
    ensures state.Valid() && ids.next == old(ids.next) + |arcs|
    ensures (state.edges, added) == Connect(old(state.edges), old(ids.next), arcs)
  {
    added := [];
    for i := 0 to |arcs|
      invariant state.Valid() && ids.next == old(ids.next) + i
      invariant (state.edges, added) == Connect(old(state.edges), old(ids.next), arcs[..i])
    {
      assert arcs[..i + 1][..i] == arcs[..i];
      var id := ids.NewId();
      var edge := Edge(id, arcs[i].from, arcs[i].to);
      var new_ := state.AddEdge(edge);
      if new_ {
        added := added + [edge];
      }
    }
    assert arcs[..|arcs|] == arcs;
  }

  /** The nested loop over parents and children of a deleted node. */
  method ListPairs(parents: seq<Id>, children: seq<Id>) returns (arcs: seq<Arc>)
    ensures arcs == Pairs(parents, children)
  {
    arcs := [];
    for i := 0 to |parents|
      invariant arcs == Pairs(parents[..i], children)
    {
      assert parents[..i + 1][..i] == parents[..i];
      ghost var before := arcs;
      for j := 0 to |children|
        invariant arcs == before + PairsFrom(parents[i], children[..j])
      {
        assert children[..j + 1][..j] == children[..j];
        if parents[i] != children[j] {
          arcs := arcs + [Arc(parents[i], children[j])];
        }
      }
      assert children[..|children|] == children;
    }
    assert parents[..|parents|] == parents;
  }

  method ApplyDeleteNode(state: FaultTreeState, ids: IdSupply, op: Op, mode: Mode) returns (reply: Reply)
    requires state.Valid() && op.DeleteNode?
    modifies state, ids
    ensures state.Valid()
    ensures Outcome(state.View(), ids.next, reply) == DeleteNodeOutcome(old(state.View()), old(ids.next), op, mode)
  {
    var at := state.GetNode(op.nodeId);
    if at.None? {
      return Err(NodeNotFound);
    }
    if state.nodes[at.value].kind == TopEvent {
      return Err(OperationNotAllowed);
    }
    var parents := state.ParentIdsOf(op.nodeId);
    var children := state.ChildIdsOf(op.nodeId);
    var toDelete := {op.nodeId};
    if op.deleteChildren {
      var below := CollectDescendants(state.edges, op.nodeId);
      toDelete := toDelete + set a | a in below;
    }
    if mode == Strict && !op.deleteChildren && |children| > 0 && |parents| == 0 {
      return Err(OperationNotAllowed);
    }
    reply := RemoveAndSplice(state, ids, op, toDelete, parents, children);
  }

  /** Removes the doomed rows and, when the children stay, joins every parent to every child. */
  method RemoveAndSplice(state: FaultTreeState, ids: IdSupply, op: Op, toDelete: set<Id>, parents: seq<Id>,
                         children: seq<Id>)
    returns (reply: Reply)
    requires state.Valid() && op.DeleteNode? && toDelete == Doomed(state.View(), op)
    requires parents == Ascending(ParentsOf(state.edges, op.nodeId))
    requires children == Ascending(ChildrenOf(state.edges, op.nodeId))
    modifies state, ids
    ensures state.Valid()
    ensures Outcome(state.View(), ids.next, reply) == Deleted(old(state.View()), old(ids.next), op)
  {
    var arcs := [];
    if !op.deleteChildren {
      arcs := ListPairs(parents, children);
    }
    reply := RemoveAndJoin(state, ids, toDelete, arcs);
  }

  method RemoveAndJoin(state: FaultTreeState, ids: IdSupply, doomed: set<Id>, arcs: seq<Arc>) returns (reply: Reply)
    requires state.Valid()
    modifies state, ids
    ensures state.Valid()
    ensures Outcome(state.View(), ids.next, reply) == RemovedAndJoined(old(state.View()), old(ids.next), doomed, arcs)
  {
    var deletedNodes, deletedEdges := state.RemoveNodes(doomed);
    var added := ConnectAll(state, ids, arcs);
    var patch := Patch([], deletedNodes, added, deletedEdges);
    reply := Ok(OpResult(patch, |deletedNodes|, |patch.upsertEdges| + |patch.deleteEdges|));
  }

  method ApplyMoveNode(state: FaultTreeState, ids: IdSupply, op: Op, mode: Mode) returns (reply: Reply)
    requires state.Valid() && op.MoveNode?
    modifies state, ids
    ensures state.Valid()
    ensures Outcome(state.View(), ids.next, reply) == MoveNodeOutcome(old(state.View()), old(ids.next), op, mode)
  {
    if op.nodeId == NoId || op.newParent == NoId || op.nodeId == op.newParent {
      return Err(InvalidParameters);
    }
    var at, under := state.GetNode(op.nodeId), state.GetNode(op.newParent);
    if at.None? || under.None? {
      return Err(NodeNotFound);
    }
    var node, parent := state.nodes[at.value], state.nodes[under.value];
    if node.kind == TopEvent || parent.kind == BasicEvent {
      return Err(OperationNotAllowed);
    }
    if mode == Strict && parent.kind != Gate && node.kind != Gate {
      return Err(OperationNotAllowed);
    }
    var below := CollectDescendants(state.edges, op.nodeId);
    assert op.newParent in below <==> op.newParent in set a | a in below;
    if op.newParent in below {
      return Err(OperationNotAllowed);
    }
    reply := Reattach(state, ids, op);
  }

  method Reattach(state: FaultTreeState, ids: IdSupply, op: Op) returns (reply: Reply)
    requires state.Valid() && op.MoveNode?
    modifies state, ids
    ensures state.Valid()
    ensures Outcome(state.View(), ids.next, reply) == Moved(old(state.View()), old(ids.next), op)
  {
    var deleted := state.RemoveIncomingEdges(op.nodeId);
    var added := ConnectAll(state, ids, [Arc(op.newParent, op.nodeId)]);
    reply := Ok(OpResult(Patch([], [], added, deleted), 1, |added| + |deleted|));
  }

  /** The read and validate tools, as far as they can fail. */
  method ApplyRead(state: FaultTreeState, ids: IdSupply, op: Op) returns (reply: Reply)
    requires state.Valid()
    ensures Outcome(state.View(), ids.next, reply) == ReadOutcome(state.View(), ids.next, op)
  {
    match op
    case GetNodeDetail(id) =>
      var at := state.GetNode(id);
      reply := if at.None? then Err(NodeNotFound) else Ok(NO_CHANGE);
    case GetSubtree(id, _) =>
      var at := state.GetNode(id);
      reply := if at.None? then Err(NodeNotFound) else Ok(NO_CHANGE);
    case CheckGateSemantics(id) =>
      var at := state.GetNode(id);
      reply := if id != NoId && at.None? then Err(NodeNotFound) else Ok(NO_CHANGE);
    case GetGraphSnapshot(_, _) => reply := Ok(NO_CHANGE);
    case ValidateConstraints => reply := Ok(NO_CHANGE);
    case _ => reply := Err(UnknownTool);
  }

  method ApplyOperation(state: FaultTreeState, ids: IdSupply, op: Op, mode: Mode) returns (reply: Reply)
    requires state.Valid() && !op.Batch?
    modifies state, ids
    ensures state.Valid()
    ensures Outcome(state.View(), ids.next, reply) == SingleOutcome(old(state.View()), old(ids.next), op, mode)
  {
    match op
    case UpdateNode(_, _, _, _) => reply := ApplyUpdateNode(state, ids, op);
    case UpdateGate(_, _) => reply := ApplyUpdateGate(state, ids, op);
    case AddNode(_, _, _, _) => reply := ApplyAddNode(state, ids, op, mode);
    case AddGate(_, _, _) => reply := ApplyAddGate(state, ids, op, mode);
    case DeleteNode(_, _) => reply := ApplyDeleteNode(state, ids, op, mode);
    case MoveNode(_, _) => reply := ApplyMoveNode(state, ids, op, mode);
    case _ => reply := ApplyRead(state, ids, op);
  }
}
