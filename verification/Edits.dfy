/** What each tool call does to a graph, as functions of the graph, the next fresh serial number
    and the decoded request. The engine's methods are proved against these. */
module Edits {
  import opened Basics
  import opened Reachability
  import opened FaultTree
  import opened Sorting
  import opened Traversal

  datatype Error = InvalidParameters | UnknownTool | NodeNotFound | OperationNotAllowed | VersionConflict
                 | ProjectNotFound | StorageFailure

  /** Repair is the permissive variant of each operation that batches in repair mode use. */
  datatype Mode = Strict | Repair

  /** The fields an upsert carries; absent fields keep their value, and an empty text clears it. */
  datatype NodePatch = NodePatch(id: Id, kind: Option<NodeKind>, gate: Option<GateType>, name: Option<string>,
                                 description: Option<string>, investigation: Option<string>)

  datatype Patch = Patch(upsertNodes: seq<NodePatch>, deleteNodes: seq<Id>, upsertEdges: seq<Edge>,
      deleteEdges: seq<Id>)

  const EMPTY_PATCH := Patch([], [], [], [])

  datatype OpResult = OpResult(patch: Patch, changedNodes: nat, changedEdges: nat)

  const NO_CHANGE := OpResult(EMPTY_PATCH, 0, 0)

  datatype Reply = Ok(result: OpResult) | Err(error: Error)

  datatype Outcome = Outcome(graph: Graph, next: nat, reply: Reply)

  /** Decoded tool calls. A gate type or node kind outside the known ones arrives as None or OtherKind,
      an absent parent as NoId. OtherTool is a registered tool the executor does not run; complete tells
      whether its required field is there. */
  datatype Op =
    | UpdateNode(nodeId: Id, name: Option<string>, description: Option<string>, investigation: Option<string>)
    | UpdateGate(nodeId: Id, gate: Option<GateType>)
    | AddNode(newName: string, kind: NodeKind, newDescription: string, parent: Id)
    | AddGate(gate: Option<GateType>, parent: Id, childIds: seq<Id>)
    | DeleteNode(nodeId: Id, deleteChildren: bool)
    | MoveNode(nodeId: Id, newParent: Id)
    | GetGraphSnapshot(maxNodes: Option<int>, maxEdges: Option<int>)
    | GetNodeDetail(nodeId: Id)
    | GetSubtree(nodeId: Id, maxDepth: Option<int>)
    | CheckGateSemantics(nodeId: Id)
    | ValidateConstraints
    | OtherTool(complete: bool)
    | UnregisteredTool
    | Batch(ops: seq<Op>, repairMode: bool)

  // ---------- selections ----------

  function NodesIn(nodes: seq<Node>, ids: set<Id>): set<Node>
  {
    set n | n in nodes && n.id in ids
  }

  function EdgesTouching(edges: seq<Edge>, ids: set<Id>): set<Edge>
  {
    set e | e in edges && (e.from in ids || e.to in ids)
  }

  function EdgesFromTo(edges: seq<Edge>, from: Id, to: set<Id>): set<Edge>
  {
    set e | e in edges && e.from == from && e.to in to
  }

  function EdgesInto(edges: seq<Edge>, to: Id): set<Edge>
  {
    set e | e in edges && e.to == to
  }

  function ParentsOf(edges: seq<Edge>, id: Id): set<Id>
  {
    set e | e in edges && e.to == id :: e.from
  }

  function ChildrenOf(edges: seq<Edge>, id: Id): set<Id>
  {
    set e | e in edges && e.from == id :: e.to
  }

  predicate Joins(edges: seq<Edge>, from: Id, to: Id)
  {
    exists e :: e in edges && e.from == from && e.to == to
  }

  // ---------- building blocks ----------

  /** Adds one edge per arc, numbered from next, skipping arcs that are already there. */
  function Connect(edges: seq<Edge>, next: nat, arcs: seq<Arc>): (seq<Edge>, seq<Edge>)
  {
    if arcs == [] then (edges, [])
    else
      var n := |arcs| - 1;
      var (es, added) := Connect(edges, next, arcs[..n]);
      var e := Edge(Id(next + n), arcs[n].from, arcs[n].to);
      if Joins(es, e.from, e.to) then (es, added) else (es + [e], added + [e])
  }

  lemma ConnectOne(edges: seq<Edge>, next: nat, arc: Arc)
    ensures var e := Edge(Id(next), arc.from, arc.to);
            Connect(edges, next, [arc]) == if Joins(edges, arc.from, arc.to) then (edges, []) else (edges + [e], [e])
  {
    var e := Edge(Id(next), arc.from, arc.to);
    assert [arc][..0] == [] && [] + [e] == [e];
    assert Connect(edges, next, []) == (edges, []);
  }

  function PairsFrom(parent: Id, children: seq<Id>): seq<Arc>
  {
    if children == [] then []
    else
      var c := children[|children| - 1];
      PairsFrom(parent, children[..|children| - 1]) + if c == parent then [] else [Arc(parent, c)]
  }

  /** Every parent with every child, except a node with itself. */
  function Pairs(parents: seq<Id>, children: seq<Id>): seq<Arc>
  {
    if parents == [] then []
    else Pairs(parents[..|parents| - 1], children) + PairsFrom(parents[|parents| - 1], children)
  }

  function Fan(from: Id, to: seq<Id>): seq<Arc>
  {
    seq(|to|, i requires 0 <= i < |to| => Arc(from, to[i]))
  }

  /** The first occurrences of the non-blank members. */
  function Distinct(ids: seq<Id>): seq<Id>
  {
    if ids == [] then []
    else
      var init, last := Distinct(ids[..|ids| - 1]), ids[|ids| - 1];
      if last == NoId || last in init then init else init + [last]
  }

  function NewNodePatch(n: Node): NodePatch
  {
    NodePatch(n.id, Some(n.kind), n.gate, Some(n.name), n.description, n.investigation)
  }

  function TextField(value: string): Option<string>
  {
    if value == "" then None else Some(value)
  }

  // ---------- the operations ----------

  function Fails(g: Graph, next: nat, error: Error): Outcome
  {
    Outcome(g, next, Err(error))
  }

  function UpdateNodeOutcome(g: Graph, next: nat, op: Op): Outcome
    requires op.UpdateNode?
  {
    var at := Position(g.nodes, op.nodeId);
    if at.None? then Fails(g, next, NodeNotFound)
    else if op.name == Some("") then Fails(g, next, InvalidParameters)
    else if op.name.None? && op.description.None? && op.investigation.None? then Outcome(g, next, Ok(NO_CHANGE))
    else
      var n := g.nodes[at.value];
      var n' := n.(name := if op.name.Some? then op.name.value else n.name,
                   description := if op.description.Some? then TextField(op.description.value) else n.description,
                   investigation := if op.investigation.Some? then TextField(op.investigation.value)
                                    else n.investigation);
      var p := NodePatch(n.id, None, None, op.name, op.description, op.investigation);
      Outcome(g.(nodes := g.nodes[at.value := n']), next, Ok(OpResult(Patch([p], [], [], []), 1, 0)))
  }

  function UpdateGateOutcome(g: Graph, next: nat, op: Op): Outcome
    requires op.UpdateGate?
  {
    if op.gate.None? then Fails(g, next, InvalidParameters)
    else
      var at := Position(g.nodes, op.nodeId);
      if at.None? then Fails(g, next, NodeNotFound)
      else
        var n := g.nodes[at.value];
        if n.kind != Gate then Fails(g, next, OperationNotAllowed)
        else if n.gate == op.gate then Outcome(g, next, Ok(NO_CHANGE))
        else
          var p := NodePatch(n.id, Some(n.kind), op.gate, Some(n.name), None, None);
          Outcome(g.(nodes := g.nodes[at.value := n.(gate := op.gate)]), next,
            Ok(OpResult(Patch([p], [], [], []), 1, 0)))
  }

  /** The checks add_node makes before it draws an identifier. */
  function AddNodeRefusal(g: Graph, op: Op, mode: Mode): Option<Error>
    requires op.AddNode?
  {
    if op.newName == "" then Some(InvalidParameters)
    else if op.kind == OtherKind then Some(InvalidParameters)
    else if op.kind == Gate then Some(if mode == Strict then OperationNotAllowed else InvalidParameters)
    else if op.kind == TopEvent then
      if g.nodes != [] || op.parent != NoId then Some(OperationNotAllowed) else None
    else if op.parent == NoId then Some(InvalidParameters)
    else None
  }

  /** Why a node may not become the parent of a new node. */
  function ParentRefusal(g: Graph, parent: Id, mode: Mode): Option<Error>
  {
    var p := NodeWith(g.nodes, parent);
    if p.None? then Some(NodeNotFound)
    else if p.value.kind == BasicEvent then Some(OperationNotAllowed)
    else if mode == Strict && p.value.kind != Gate then Some(OperationNotAllowed)
    else None
  }

  function AddNodeOutcome(g: Graph, next: nat, op: Op, mode: Mode): Outcome
    requires op.AddNode?
  {
    var refusal := AddNodeRefusal(g, op, mode);
    if refusal.Some? then Fails(g, next, refusal.value)
    else
      var n := Node(Id(next), op.kind, None, op.newName, TextField(op.newDescription), None);
      if op.parent == NoId then
        Outcome(g.(nodes := g.nodes + [n]), next + 1, Ok(OpResult(Patch([NewNodePatch(n)], [], [], []), 1, 0)))
      else
        var refused := ParentRefusal(g, op.parent, mode);
        if refused.Some? then Fails(g, next + 1, refused.value)
        else
          var e := Edge(Id(next + 1), op.parent, n.id);
          Outcome(Graph(g.nodes + [n], Connect(g.edges, next + 1, [Arc(op.parent, n.id)]).0), next + 2,
                  Ok(OpResult(Patch([NewNodePatch(n)], [], [e], []), 1, 1)))
  }

  /** Why a node may not be rewired below the new gate. */
  function ChildRefusal(g: Graph, parent: Id, child: Id): Option<Error>
  {
    if child == NoId then None
    else if child == parent then Some(InvalidParameters)
    else
      var c := NodeWith(g.nodes, child);
      if c.None? then Some(NodeNotFound)
      else if c.value.kind == TopEvent then Some(OperationNotAllowed)
      else if !Joins(g.edges, parent, child) then Some(OperationNotAllowed)
      else None
  }

  function FirstRefusal(g: Graph, parent: Id, children: seq<Id>): Option<Error>
  {
    if children == [] then None
    else
      var earlier := FirstRefusal(g, parent, children[..|children| - 1]);
      if earlier.Some? then earlier else ChildRefusal(g, parent, children[|children| - 1])
  }

  function AddGateRefusal(g: Graph, op: Op, mode: Mode): Option<Error>
    requires op.AddGate?
  {
    if op.gate.None? then Some(InvalidParameters)
    else
      var p := NodeWith(g.nodes, op.parent);
      if p.None? then Some(NodeNotFound)
      else if p.value.kind == BasicEvent then Some(OperationNotAllowed)
      else if op.childIds == [] then Some(InvalidParameters)
      else
        var refused := FirstRefusal(g, op.parent, op.childIds);
        var count := |Distinct(op.childIds)|;
        if refused.Some? then refused
        else if op.gate == Some(Not) then if count != 1 then Some(InvalidParameters) else None
        else if count < (if mode == Strict then 2 else 1) then Some(InvalidParameters)
        else None
  }

  function AddGateOutcome(g: Graph, next: nat, op: Op, mode: Mode): Outcome
    requires op.AddGate?
  {
    var refusal := AddGateRefusal(g, op, mode);
    if refusal.Some? then Fails(g, next, refusal.value) else GateInserted(g, next, op)
  }

  function GateInserted(g: Graph, next: nat, op: Op): Outcome
    requires op.AddGate?
  {
    var children := Distinct(op.childIds);
    var n := Node(Id(next), Gate, op.gate, GateName(op.gate), None, None);
    var cut := EdgesFromTo(g.edges, op.parent, set c | c in children);
    var arcs := [Arc(op.parent, n.id)] + Fan(n.id, children);
    var (edges, added) := Connect(Without(g.edges, cut), next + 1, arcs);
    var deleted := EdgeIdsOf(Only(g.edges, cut));
    Outcome(Graph(g.nodes + [n], edges), next + 1 + |arcs|,
            Ok(OpResult(Patch([NewNodePatch(n)], [], added, deleted), 1, |added| + |deleted|)))
  }

  function GateName(gate: Option<GateType>): string
  {
    match gate
    case Some(And) => "AND"
    case Some(Or) => "OR"
    case Some(Not) => "NOT"
    case None => ""
  }

  ghost function Doomed(g: Graph, op: Op): set<Id>
    requires op.DeleteNode?
  {
    {op.nodeId} + if op.deleteChildren then Descendants(g.edges, op.nodeId) else {}
  }

  function RemoveNodes(g: Graph, doomed: set<Id>): Graph
  {
    Graph(Without(g.nodes, NodesIn(g.nodes, doomed)), Without(g.edges, EdgesTouching(g.edges, doomed)))
  }

  ghost function DeleteRefusal(g: Graph, op: Op, mode: Mode): Option<Error>
    requires op.DeleteNode?
  {
    var n := NodeWith(g.nodes, op.nodeId);
    if n.None? then Some(NodeNotFound)
    else if n.value.kind == TopEvent then Some(OperationNotAllowed)
    else if mode == Strict && !op.deleteChildren && Ascending(ChildrenOf(g.edges, op.nodeId)) != []
            && Ascending(ParentsOf(g.edges, op.nodeId)) == [] then Some(OperationNotAllowed)
    else None
  }

  /** The arcs that reattach the children of a deleted node to its parents. */
  ghost function SpliceArcs(g: Graph, op: Op): seq<Arc>
    requires op.DeleteNode?
  {
    if op.deleteChildren then []
    else Pairs(Ascending(ParentsOf(g.edges, op.nodeId)), Ascending(ChildrenOf(g.edges, op.nodeId)))
  }

  ghost function DeleteNodeOutcome(g: Graph, next: nat, op: Op, mode: Mode): Outcome
    requires op.DeleteNode?
  {
    var refusal := DeleteRefusal(g, op, mode);
    if refusal.Some? then Fails(g, next, refusal.value) else Deleted(g, next, op)
  }

  ghost function Deleted(g: Graph, next: nat, op: Op): Outcome
    requires op.DeleteNode?
  {
    RemovedAndJoined(g, next, Doomed(g, op), SpliceArcs(g, op))
  }

  /** The doomed rows go, then one new edge per arc comes. */
  function RemovedAndJoined(g: Graph, next: nat, doomed: set<Id>, arcs: seq<Arc>): Outcome
  {
    var left := RemoveNodes(g, doomed);
    var (edges, added) := Connect(left.edges, next, arcs);
    var deletedNodes := IdsOf(Only(g.nodes, NodesIn(g.nodes, doomed)));
    var deletedEdges := EdgeIdsOf(Only(g.edges, EdgesTouching(g.edges, doomed)));
    Outcome(Graph(left.nodes, edges), next + |arcs|,
            Ok(OpResult(Patch([], deletedNodes, added, deletedEdges), |deletedNodes|, |added| + |deletedEdges|)))
  }

  ghost function MoveRefusal(g: Graph, op: Op, mode: Mode): Option<Error>
    requires op.MoveNode?
  {
    if op.nodeId == NoId || op.newParent == NoId || op.nodeId == op.newParent then Some(InvalidParameters)
    else
      var n, p := NodeWith(g.nodes, op.nodeId), NodeWith(g.nodes, op.newParent);
      if n.None? || p.None? then Some(NodeNotFound)
      else if n.value.kind == TopEvent || p.value.kind == BasicEvent then Some(OperationNotAllowed)
      else if mode == Strict && p.value.kind != Gate && n.value.kind != Gate then Some(OperationNotAllowed)
      else if op.newParent in Descendants(g.edges, op.nodeId) then Some(OperationNotAllowed)
      else None
  }

  ghost function MoveNodeOutcome(g: Graph, next: nat, op: Op, mode: Mode): Outcome
    requires op.MoveNode?
  {
    var refusal := MoveRefusal(g, op, mode);
    if refusal.Some? then Fails(g, next, refusal.value) else Moved(g, next, op)
  }

  function Moved(g: Graph, next: nat, op: Op): Outcome
    requires op.MoveNode?
  {
    var cut := EdgesInto(g.edges, op.nodeId);
    var (edges, added) := Connect(Without(g.edges, cut), next, [Arc(op.newParent, op.nodeId)]);
    var deleted := EdgeIdsOf(Only(g.edges, cut));
    Outcome(g.(edges := edges), next + 1, Ok(OpResult(Patch([], [], added, deleted), 1, |added| + |deleted|)))
  }

  /** Read tools answer from the graph and change nothing. */
  function ReadOutcome(g: Graph, next: nat, op: Op): Outcome
  {
    match op
    case GetNodeDetail(id) =>
      if Position(g.nodes, id).None? then Fails(g, next, NodeNotFound) else Outcome(g, next, Ok(NO_CHANGE))
    case GetSubtree(id, _) =>
      if Position(g.nodes, id).None? then Fails(g, next, NodeNotFound) else Outcome(g, next, Ok(NO_CHANGE))
    case CheckGateSemantics(id) =>
      if id != NoId && Position(g.nodes, id).None? then Fails(g, next, NodeNotFound)
      else Outcome(g, next, Ok(NO_CHANGE))
    case GetGraphSnapshot(_, _) => Outcome(g, next, Ok(NO_CHANGE))
    case ValidateConstraints => Outcome(g, next, Ok(NO_CHANGE))
    case _ => Fails(g, next, UnknownTool)
  }

  /** One operation that is not a batch. */
  ghost function SingleOutcome(g: Graph, next: nat, op: Op, mode: Mode): Outcome
    requires !op.Batch?
  {
    match op
    case UpdateNode(_, _, _, _) => UpdateNodeOutcome(g, next, op)
    case UpdateGate(_, _) => UpdateGateOutcome(g, next, op)
    case AddNode(_, _, _, _) => AddNodeOutcome(g, next, op, mode)
    case AddGate(_, _, _) => AddGateOutcome(g, next, op, mode)
    case DeleteNode(_, _) => DeleteNodeOutcome(g, next, op, mode)
    case MoveNode(_, _) => MoveNodeOutcome(g, next, op, mode)
    case _ => ReadOutcome(g, next, op)
  }

  // ---------- parameters and batches ----------

  const MAX_BATCH := 50

  function SingleRefusal(op: Op): Option<Error>
  {
    match op
    case UpdateNode(id, name, _, _) => if id == NoId || name == Some("") then Some(InvalidParameters) else None
    case UpdateGate(id, gate) => if id == NoId || gate.None? then Some(InvalidParameters) else None
    case AddNode(name, kind, _, _) =>
      if name == "" || kind == Gate || kind == OtherKind then Some(InvalidParameters) else None
    case AddGate(gate, parent, children) =>
      if gate.None? || parent == NoId || Distinct(children) == [] then Some(InvalidParameters) else None
    case DeleteNode(id, _) => if id == NoId then Some(InvalidParameters) else None
    case MoveNode(id, parent) => if id == NoId || parent == NoId then Some(InvalidParameters) else None
    case GetGraphSnapshot(maxNodes, maxEdges) =>
      if (maxNodes.Some? && maxNodes.value <= 0) || (maxEdges.Some? && maxEdges.value <= 0)
      then Some(InvalidParameters) else None
    case GetNodeDetail(id) => if id == NoId then Some(InvalidParameters) else None
    case GetSubtree(id, depth) =>
      if id == NoId || (depth.Some? && !(0 < depth.value <= 8)) then Some(InvalidParameters) else None
    case OtherTool(complete) => if complete then None else Some(InvalidParameters)
    case UnregisteredTool => Some(UnknownTool)
    case Batch(_, _) => Some(OperationNotAllowed)
    case _ => None
  }

  function FirstBatchRefusal(ops: seq<Op>): Option<Error>
  {
    if ops == [] then None
    else
      var earlier := FirstBatchRefusal(ops[..|ops| - 1]);
      if earlier.Some? then earlier else SingleRefusal(ops[|ops| - 1])
  }

  /** The parameter check every call passes first; a batch may not contain a batch. */
  function Refusal(op: Op): Option<Error>
  {
    if op.Batch? then
      if op.ops == [] || |op.ops| > MAX_BATCH then Some(InvalidParameters) else FirstBatchRefusal(op.ops)
    else SingleRefusal(op)
  }

  function MergePatch(p: Patch, q: Patch): Patch
  {
    Patch(p.upsertNodes + q.upsertNodes, p.deleteNodes + q.deleteNodes,
          p.upsertEdges + q.upsertEdges, p.deleteEdges + q.deleteEdges)
  }

  function Merge(a: OpResult, b: OpResult): OpResult
  {
    OpResult(MergePatch(a.patch, b.patch), a.changedNodes + b.changedNodes, a.changedEdges + b.changedEdges)
  }

  /** One member of a batch: checked, then applied. */
  ghost function CheckedOutcome(g: Graph, next: nat, op: Op, mode: Mode): Outcome
  {
    var refusal := SingleRefusal(op);
    if refusal.Some? then Fails(g, next, refusal.value) else SingleOutcome(g, next, op, mode)
  }

  /** The operations in order, until one fails; the graph then keeps what the earlier ones did. */
  ghost function RunOps(g: Graph, next: nat, ops: seq<Op>, mode: Mode): Outcome
  {
    if ops == [] then Outcome(g, next, Ok(NO_CHANGE))
    else
      var before := RunOps(g, next, ops[..|ops| - 1], mode);
      if before.reply.Err? then before
      else
        var last := CheckedOutcome(before.graph, before.next, ops[|ops| - 1], mode);
        if last.reply.Err? then last else last.(reply := Ok(Merge(before.reply.result, last.reply.result)))
  }
}
