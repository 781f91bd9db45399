/** Fatal-free with leaf basic events is kept by every operation, strict or permissive. */
module Soundness {
  import opened Basics
  import opened Reachability
  import opened Rewiring
  import opened FaultTree
  import opened Traversal
  import opened Edits
  import opened TreeState
  import opened GraphEffects
  import opened Restructuring
  import opened Constraints

  /** Unique keys, one top event above everything, no dangling edge, no cycle, leaf basic events. */
  ghost predicate Sound(g: Graph)
  {
    Keyed(g) && FatalFree(g) && BasicEventsAreLeaves(g)
  }

  // ---------- keys ----------

  /** Rows after cutting and connecting still have unique keys drawn from the supply. */
  lemma RewiredKeys(edges: seq<Edge>, cut: set<Edge>, next: nat, arcs: seq<Arc>)
    requires DistinctEdges(edges) && forall e :: e in edges ==> Under(e.id, next)
    ensures DistinctEdges(Connect(Without(edges, cut), next, arcs).0)
    ensures forall e :: e in Connect(Without(edges, cut), next, arcs).0 ==>
      (e in edges && e !in cut) || (Arc(e.from, e.to) in arcs && e.id.Id? && next <= e.id.serial < next + |arcs|)
  {
    var kept := Without(edges, cut);
    WithoutMembers(edges, cut);
    WithoutKeepsDistinctEdges(edges, cut);
    ConnectAppends(kept, next, arcs);
    var added := Connect(kept, next, arcs).1;
    forall i, j | 0 <= i < |kept| && 0 <= j < |added| ensures kept[i].id != added[j].id {
      assert kept[i] in kept && added[j] in added;
    }
  }

  lemma AppendedKeys(g: Graph, n: Node, next: nat)
    requires Keyed(g) && Issued(g, next) && n.id == Id(next)
    ensures DistinctNodes(g.nodes + [n])
    ensures forall m :: m in g.nodes + [n] ==> m.id != NoId && Under(m.id, next + 1)
  {
    forall i | 0 <= i < |g.nodes| ensures g.nodes[i].id != n.id {
      assert g.nodes[i] in g.nodes;
    }
  }

  // ---------- counting top events ----------

  lemma {:induction false} RemovingOthersKeepsTop(nodes: seq<Node>, doomed: set<Node>)
    requires forall n :: n in doomed ==> n.kind != TopEvent
    ensures TopEvents(Without(nodes, doomed)) == TopEvents(nodes)
  {
    if nodes != [] {
      var init, last := nodes[..|nodes| - 1], nodes[|nodes| - 1];
      RemovingOthersKeepsTop(init, doomed);
      assert (Without(init, doomed) + [last])[..|Without(init, doomed)|] == Without(init, doomed);
    }
  }

  lemma AppendingOthersKeepsTop(nodes: seq<Node>, n: Node)
    requires n.kind != TopEvent
    ensures OneTopEvent(nodes + [n]) <==> OneTopEvent(nodes)
  {
    assert (nodes + [n])[..|nodes|] == nodes;
    TopEventsCount(nodes);
    TopEventsCount(nodes + [n]);
  }

  // ---------- the rules, edge by edge ----------

  /** The edge leaves a node that is no basic event and enters a node that is no top event. */
  predicate Fits(nodes: seq<Node>, e: Edge)
  {
    var f, t := NodeWith(nodes, e.from), NodeWith(nodes, e.to);
    f.Some? && t.Some? && f.value.kind != BasicEvent && t.value.kind != TopEvent
  }

  ghost predicate AllFit(g: Graph)
  {
    forall e :: e in g.edges ==> Fits(g.nodes, e)
  }

  lemma RulesByEdge(g: Graph)
    requires Keyed(g)
    ensures AllFit(g) <==> EndsExist(g) && TopEventsAreRoots(g) && BasicEventsAreLeaves(g)
  {
    KeyedFound(g);
    if AllFit(g) {
      forall e | e in g.edges ensures HasNode(g.nodes, e.from) && HasNode(g.nodes, e.to) {
        assert Fits(g.nodes, e);
      }
    }
    if EndsExist(g) && TopEventsAreRoots(g) && BasicEventsAreLeaves(g) {
      forall e | e in g.edges ensures Fits(g.nodes, e) {
        assert HasNode(g.nodes, e.from) && HasNode(g.nodes, e.to);
      }
    }
  }

  /** Sound, with the rules checked edge by edge. */
  lemma SoundByEdge(g: Graph)
    ensures Sound(g) <==> Keyed(g) && AllFit(g) && OneTopEvent(g.nodes) && Acyclic(ArcsOf(g.edges))
  {
    if Keyed(g) {
      RulesByEdge(g);
    }
  }

  lemma LookupAppended(nodes: seq<Node>, n: Node, id: Id)
    ensures NodeWith(nodes + [n], id) == if n.id == id then Some(n) else NodeWith(nodes, id)
  {
    assert (nodes + [n])[..|nodes|] == nodes;
  }

  lemma FitsAppended(nodes: seq<Node>, n: Node, e: Edge)
    requires n.id != e.from && n.id != e.to
    ensures Fits(nodes + [n], e) <==> Fits(nodes, e)
  {
    LookupAppended(nodes, n, e.from);
    LookupAppended(nodes, n, e.to);
  }

  // ---------- one lemma per operation ----------

  lemma LookupUpdated(nodes: seq<Node>, at: nat, n: Node, id: Id)
    requires at < |nodes| && n.id == nodes[at].id && n.kind == nodes[at].kind
    ensures NodeWith(nodes[at := n], id).Some? <==> NodeWith(nodes, id).Some?
    ensures NodeWith(nodes, id).Some? ==> NodeWith(nodes[at := n], id).value.kind == NodeWith(nodes, id).value.kind
  {
    PositionAfterUpdate(nodes, at, n);
  }

  lemma UpdateKeepsSound(g: Graph, next: nat, at: nat, n: Node)
    requires Sound(g) && Issued(g, next) && at < |g.nodes| && n.id == g.nodes[at].id && n.kind == g.nodes[at].kind
    ensures Sound(g.(nodes := g.nodes[at := n])) && Issued(g.(nodes := g.nodes[at := n]), next)
  {
    var nodes := g.nodes[at := n];
    var g' := g.(nodes := nodes);
    forall m | m in nodes ensures m.id != NoId && Under(m.id, next) {
      var i :| 0 <= i < |nodes| && nodes[i] == m;
      assert g.nodes[i] in g.nodes;
    }
    UpdateKeepsTop(g.nodes, at, n);
    SoundByEdge(g);
    forall e | e in g.edges ensures Fits(nodes, e) {
      LookupUpdated(g.nodes, at, n, e.from);
      LookupUpdated(g.nodes, at, n, e.to);
    }
    SoundByEdge(g');
  }

  lemma UpdateKeepsTop(nodes: seq<Node>, at: nat, n: Node)
    requires at < |nodes| && n.kind == nodes[at].kind && OneTopEvent(nodes)
    ensures OneTopEvent(nodes[at := n])
  {
    var t :| 0 <= t < |nodes| && nodes[t].kind == TopEvent;
    assert nodes[at := n][t].kind == TopEvent;
    assert forall i :: 0 <= i < |nodes| ==> nodes[at := n][i].kind == nodes[i].kind;
  }

  lemma AddNodeKeepsSound(g: Graph, next: nat, op: Op, mode: Mode)
    requires Sound(g) && Issued(g, next) && op.AddNode? && AddNodeOutcome(g, next, op, mode).reply.Ok?
    ensures var after := AddNodeOutcome(g, next, op, mode); Sound(after.graph) && Issued(after.graph, after.next)
  {
    assert SomeTopEvent(g.nodes);
    var n := Node(Id(next), op.kind, None, op.newName, TextField(op.newDescription), None);
    NodeWithExact(g.nodes, op.parent);
    LeafKeepsSound(g, next, n, NodeWith(g.nodes, op.parent).value);
  }

  /** A new node that is no top event, hung below a node that is no basic event. */
  lemma LeafKeepsSound(g: Graph, next: nat, n: Node, p: Node)
    requires Sound(g) && Issued(g, next) && n.id == Id(next) && n.kind != TopEvent
    requires p in g.nodes && p.kind != BasicEvent
    ensures var g' := Graph(g.nodes + [n], Connect(g.edges, next + 1, [Arc(p.id, n.id)]).0);
            Sound(g') && Issued(g', next + 2)
  {
    var arc := Arc(p.id, n.id);
    var g' := Graph(g.nodes + [n], Connect(g.edges, next + 1, [arc]).0);
    LeafKeepsAcyclic(g, next, arc);
    LeafKeepsKeys(g, next, n, p.id);
    LeafKeepsRules(g, next, n, p);
    AppendingOthersKeepsTop(g.nodes, n);
    SoundByEdge(g');
  }

  lemma LeafKeepsAcyclic(g: Graph, next: nat, arc: Arc)
    requires Keyed(g) && Issued(g, next) && Acyclic(ArcsOf(g.edges))
    requires arc.to == Id(next) && arc.from != Id(next) && arc.from != NoId
    ensures Acyclic(ArcsOf(Connect(g.edges, next + 1, [arc]).0))
  {
    LeafArcAcyclic(g, next, arc);
    ConnectArcs(g.edges, next + 1, [arc]);
    assert ArcSet([arc]) == {arc};
  }

  lemma LeafKeepsKeys(g: Graph, next: nat, n: Node, p: Id)
    requires Keyed(g) && Issued(g, next) && n.id == Id(next) && Under(p, next)
    ensures var g' := Graph(g.nodes + [n], Connect(g.edges, next + 1, [Arc(p, n.id)]).0);
            Keyed(g') && Issued(g', next + 2)
  {
    AppendedKeys(g, n, next);
    LeafRows(g, next, Arc(p, n.id));
  }

  lemma LeafKeepsRules(g: Graph, next: nat, n: Node, p: Node)
    requires Sound(g) && Issued(g, next) && n.id == Id(next) && n.kind != TopEvent
    requires p in g.nodes && p.kind != BasicEvent
    ensures AllFit(Graph(g.nodes + [n], Connect(g.edges, next + 1, [Arc(p.id, n.id)]).0))
  {
    var edges := Connect(g.edges, next + 1, [Arc(p.id, n.id)]).0;
    FreshIsNoEnd(g, next);
    LeafRows(g, next, Arc(p.id, n.id));
    SoundByEdge(g);
    NodeWithExact(g.nodes, p.id);
    forall e | e in edges ensures Fits(g.nodes + [n], e) {
      if e in g.edges {
        FitsAppended(g.nodes, n, e);
      } else {
        LookupAppended(g.nodes, n, e.from);
        LookupAppended(g.nodes, n, e.to);
      }
    }
  }

  lemma LeafRows(g: Graph, next: nat, arc: Arc)
    requires Keyed(g) && Issued(g, next)
    ensures var edges := Connect(g.edges, next + 1, [arc]).0;
            && DistinctEdges(edges)
            && forall e :: e in edges ==> Under(e.id, next + 2) && (e in g.edges || Arc(e.from, e.to) == arc)
  {
    WithoutNone(g.edges, {});
    RewiredKeys(g.edges, {}, next + 1, [arc]);
  }

  lemma FreshIsNoEnd(g: Graph, next: nat)
    requires Issued(g, next)
    ensures forall e :: e in g.edges ==> e.from != Id(next) && e.to != Id(next)
    ensures forall n :: n in g.nodes ==> n.id != Id(next)
    ensures forall x :: x in ArcsOf(g.edges) ==> x.from != Id(next) && x.to != Id(next)
  {
    forall x | x in ArcsOf(g.edges) ensures x.from != Id(next) && x.to != Id(next) {
      var e :| e in g.edges && !Blank(e) && Arc(e.from, e.to) == x;
    }
  }

  lemma NothingBelow(r: set<Arc>, a: Id, b: Id, k: nat)
    requires forall x :: x in r ==> x.from != a
    ensures Walk(r, a, b, k) ==> b == a
  {
    assert forall c :: Arc(a, c) in r ==> Arc(a, c).from != a;
  }

  /** A new leaf closes no cycle. */
  lemma LeafArcAcyclic(g: Graph, next: nat, arc: Arc)
    requires Issued(g, next) && Acyclic(ArcsOf(g.edges)) && arc.to == Id(next) && arc.from != Id(next)
    ensures Acyclic(ArcsOf(g.edges) + {arc})
  {
    FreshIsNoEnd(g, next);
    var r := ArcsOf(g.edges);
    assert Reparented(r, arc.to, arc.from) == r + {arc};
    forall k: nat ensures !Walk(r, arc.to, arc.from, k) {
      NothingBelow(r, arc.to, arc.from, k);
    }
    MoveKeepsAcyclic(r, arc.to, arc.from);
  }

  lemma AddGateKeepsSound(g: Graph, next: nat, op: Op, mode: Mode)
    requires Sound(g) && Issued(g, next) && op.AddGate? && AddGateOutcome(g, next, op, mode).reply.Ok?
    ensures var after := AddGateOutcome(g, next, op, mode); Sound(after.graph) && Issued(after.graph, after.next)
  {
    GateChecked(g, next, op, mode);
    GateArcs(g, next, op, mode);
    GateKeepsAcyclic(ArcsOf(g.edges), op.parent, ChildSet(op), Id(next));
    NodeWithExact(g.nodes, op.parent);
    forall c | c in Distinct(op.childIds)
      ensures NodeWith(g.nodes, c).Some? && NodeWith(g.nodes, c).value.kind != TopEvent {
      assert c in ChildSet(op);
    }
    GateKeepsSound(g, next, Node(Id(next), Gate, op.gate, GateName(op.gate), None, None),
                   NodeWith(g.nodes, op.parent).value, Distinct(op.childIds));
  }

  lemma GateKeepsSound(g: Graph, next: nat, n: Node, p: Node, children: seq<Id>)
    requires Sound(g) && Issued(g, next) && n.id == Id(next) && n.kind == Gate
    requires p in g.nodes && p.kind != BasicEvent
    requires forall c :: c in children ==> NodeWith(g.nodes, c).Some? && NodeWith(g.nodes, c).value.kind != TopEvent
    requires Acyclic(ArcsOf(GateEdges(g.edges, next + 1, p.id, n.id, children)))
    ensures var g' := Graph(g.nodes + [n], GateEdges(g.edges, next + 1, p.id, n.id, children));
            Sound(g') && Issued(g', next + 2 + |children|)
  {
    GateKeepsRules(g, next, n, p, children);
    GateKeepsKeys(g, next, n, p.id, children);
    SoundByEdge(Graph(g.nodes + [n], GateEdges(g.edges, next + 1, p.id, n.id, children)));
  }

  ghost function GateEdges(edges: seq<Edge>, next: nat, p: Id, gate: Id, children: seq<Id>): seq<Edge>
  {
    Connect(Without(edges, EdgesFromTo(edges, p, set c | c in children)), next, [Arc(p, gate)] + Fan(gate, children)).0
  }

  /** The rules but acyclicity, for a new gate between a node and children that are no top events. */
  lemma GateKeepsRules(g: Graph, next: nat, n: Node, p: Node, children: seq<Id>)
    requires Sound(g) && Issued(g, next) && n.id == Id(next) && n.kind == Gate
    requires p in g.nodes && p.kind != BasicEvent
    requires forall c :: c in children ==> NodeWith(g.nodes, c).Some? && NodeWith(g.nodes, c).value.kind != TopEvent
    ensures var g' := Graph(g.nodes + [n], GateEdges(g.edges, next + 1, p.id, n.id, children));
            AllFit(g') && OneTopEvent(g'.nodes)
    ensures forall e :: e in GateEdges(g.edges, next + 1, p.id, n.id, children) ==>
      Under(e.from, next + 1) && Under(e.to, next + 1)
  {
    AppendingOthersKeepsTop(g.nodes, n);
    FreshIsNoEnd(g, next);
    GateRows(g.edges, next + 1, p.id, n.id, children);
    SoundByEdge(g);
    NodeWithExact(g.nodes, p.id);
    forall e | e in GateEdges(g.edges, next + 1, p.id, n.id, children)
      ensures Fits(g.nodes + [n], e) && Under(e.from, next + 1) && Under(e.to, next + 1)
    {
      GateEdgeFits(g, next, n, p, e, children);
    }
  }

  lemma GateKeepsKeys(g: Graph, next: nat, n: Node, p: Id, children: seq<Id>)
    requires Keyed(g) && Issued(g, next) && n.id == Id(next)
    requires forall e :: e in GateEdges(g.edges, next + 1, p, n.id, children) ==>
      Under(e.from, next + 1) && Under(e.to, next + 1)
    ensures var g' := Graph(g.nodes + [n], GateEdges(g.edges, next + 1, p, n.id, children));
            Keyed(g') && Issued(g', next + 2 + |children|)
  {
    AppendedKeys(g, n, next);
    GateRows(g.edges, next + 1, p, n.id, children);
  }

  lemma GateEdgeFits(g: Graph, next: nat, n: Node, p: Node, e: Edge, children: seq<Id>)
    requires Keyed(g) && Issued(g, next) && n.id == Id(next) && n.kind == Gate && p.kind != BasicEvent
    requires NodeWith(g.nodes, p.id) == Some(p)
    requires forall c :: c in children ==> NodeWith(g.nodes, c).Some? && NodeWith(g.nodes, c).value.kind != TopEvent
    requires (e in g.edges && Fits(g.nodes, e)) || (e.from == p.id && e.to == n.id) ||
            (e.from == n.id && e.to in children)
    ensures Fits(g.nodes + [n], e) && Under(e.from, next + 1) && Under(e.to, next + 1)
  {
    LookupAppended(g.nodes, n, e.from);
    LookupAppended(g.nodes, n, e.to);
    NodeWithExact(g.nodes, e.to);
    NodeWithExact(g.nodes, p.id);
  }

  lemma GateRows(edges: seq<Edge>, next: nat, p: Id, gate: Id, children: seq<Id>)
    requires DistinctEdges(edges) && forall e :: e in edges ==> Under(e.id, next)
    ensures DistinctEdges(GateEdges(edges, next, p, gate, children))
    ensures forall e :: e in GateEdges(edges, next, p, gate, children) ==>
      Under(e.id, next + 1 + |children|) &&
      (e in edges || (e.from == p && e.to == gate) || (e.from == gate && e.to in children))
  {
    FanMembers(p, gate, children);
    RewiredKeys(edges, EdgesFromTo(edges, p, set c | c in children), next, [Arc(p, gate)] + Fan(gate, children));
  }

  lemma {:induction false} LookupKept(nodes: seq<Node>, doomed: set<Node>, ids: set<Id>, id: Id)
    requires forall n :: n in nodes ==> (n in doomed <==> n.id in ids)
    requires id !in ids
    ensures NodeWith(Without(nodes, doomed), id) == NodeWith(nodes, id)
    decreases |nodes|
  {
    if nodes != [] {
      var init, last := nodes[..|nodes| - 1], nodes[|nodes| - 1];
      assert last in nodes;
      LookupKept(init, doomed, ids, id);
      LookupAppended(Without(init, doomed), last, id);
    }
  }

  lemma DeletedFit(g: Graph, next: nat, op: Op, e: Edge)
    requires Keyed(g) && AllFit(g) && op.DeleteNode? && op.nodeId != NoId
    requires Arc(op.nodeId, op.nodeId) !in ArcsOf(g.edges)
    requires e in Deleted(g, next, op).graph.edges
    ensures Fits(g.nodes, e) && Fits(Deleted(g, next, op).graph.nodes, e)
  {
    var n, doomed := op.nodeId, Doomed(g, op);
    DeletedEdges(g, next, op, e);
    if e !in g.edges {
      var f :| f in g.edges && !Blank(f) && Arc(f.from, f.to) == Arc(e.from, n);
      var h :| h in g.edges && !Blank(h) && Arc(h.from, h.to) == Arc(n, e.to);
    }
    LookupKept(g.nodes, NodesIn(g.nodes, doomed), doomed, e.from);
    LookupKept(g.nodes, NodesIn(g.nodes, doomed), doomed, e.to);
  }

  lemma DeletedRows(g: Graph, next: nat, op: Op)
    requires Keyed(g) && Issued(g, next) && op.DeleteNode?
    ensures var after := Deleted(g, next, op);
            && Keyed(after.graph)
            && (forall m :: m in after.graph.nodes ==> m in g.nodes)
            && forall e :: e in after.graph.edges ==> Under(e.id, after.next)
  {
    var doomed := Doomed(g, op);
    WithoutKeepsDistinct(g.nodes, NodesIn(g.nodes, doomed));
    WithoutMembers(g.nodes, NodesIn(g.nodes, doomed));
    RewiredKeys(g.edges, EdgesTouching(g.edges, doomed), next, SpliceArcs(g, op));
  }

  lemma DeleteKeepsSound(g: Graph, next: nat, op: Op, mode: Mode)
    requires Sound(g) && Issued(g, next) && op.DeleteNode? && DeleteNodeOutcome(g, next, op, mode).reply.Ok?
    ensures var after := DeleteNodeOutcome(g, next, op, mode); Sound(after.graph) && Issued(after.graph, after.next)
  {
    var r, n := ArcsOf(g.edges), op.nodeId;
    var after := Deleted(g, next, op);
    NodeWithExact(g.nodes, n);
    NoLoop(r, n);
    DeletedAcyclic(g, next, op);
    NoTopDoomed(g, op);
    RemovingOthersKeepsTop(g.nodes, NodesIn(g.nodes, Doomed(g, op)));
    TopEventsCount(g.nodes);
    TopEventsCount(after.graph.nodes);
    DeletedRows(g, next, op);
    SoundByEdge(g);
    forall e | e in after.graph.edges ensures Fits(after.graph.nodes, e) && Under(e.from, next) && Under(e.to, next) {
      DeletedFit(g, next, op, e);
      NodeWithExact(g.nodes, e.from);
      NodeWithExact(g.nodes, e.to);
    }
    SoundByEdge(after.graph);
  }

  lemma NoLoop(r: set<Arc>, n: Id)
    requires Acyclic(r)
    ensures Arc(n, n) !in r
  {
    if Arc(n, n) in r {
      WalkArc(r, n, n);
    }
  }

  lemma NoTopDoomed(g: Graph, op: Op)
    requires Sound(g) && op.DeleteNode? && NodeWith(g.nodes, op.nodeId).Some? &&
            NodeWith(g.nodes, op.nodeId).value.kind != TopEvent
    ensures forall m :: m in NodesIn(g.nodes, Doomed(g, op)) ==> m.kind != TopEvent
  {
    NodeWithExact(g.nodes, op.nodeId);
    forall m | m in g.nodes && m.id in Doomed(g, op) ensures m.kind != TopEvent {
      if m.id != op.nodeId {
        var x :| x in ArcsOf(g.edges) && x.to == m.id;
        var e :| e in g.edges && !Blank(e) && Arc(e.from, e.to) == x;
      }
    }
  }

  lemma DeletedAcyclic(g: Graph, next: nat, op: Op)
    requires op.DeleteNode? && op.nodeId != NoId && Acyclic(ArcsOf(g.edges))
    ensures Acyclic(ArcsOf(Deleted(g, next, op).graph.edges))
  {
    var r, n := ArcsOf(g.edges), op.nodeId;
    if Arc(n, n) in r {
      WalkArc(r, n, n);
    }
    DeletedArcs(g, next, op);
    if op.deleteChildren {
      SubsetAcyclic(r, CutOff(r, Doomed(g, op)));
    } else {
      SplicedArcs(r, n);
      SimulatedAcyclic(r, SplicedOut(r, n));
    }
  }

  lemma MoveKeepsSound(g: Graph, next: nat, op: Op, mode: Mode)
    requires Sound(g) && Issued(g, next) && op.MoveNode? && MoveNodeOutcome(g, next, op, mode).reply.Ok?
    ensures var after := MoveNodeOutcome(g, next, op, mode); Sound(after.graph) && Issued(after.graph, after.next)
  {
    MoveChecked(g, next, op, mode);
    MoveIsLocal(g, next, op, mode);
    NodeWithExact(g.nodes, op.nodeId);
    NodeWithExact(g.nodes, op.newParent);
    assert HasNode(g.nodes, op.nodeId) && HasNode(g.nodes, op.newParent);
    RewiredKeys(g.edges, EdgesInto(g.edges, op.nodeId), next, [Arc(op.newParent, op.nodeId)]);
  }

  /** The invariant of the edit engine: a successful operation in either mode leads from a sound
      graph to a sound graph, with every identifier drawn from the supply. */
  lemma OperationKeepsSound(g: Graph, next: nat, op: Op, mode: Mode)
    requires Sound(g) && Issued(g, next) && !op.Batch? && SingleOutcome(g, next, op, mode).reply.Ok?
    ensures var after := SingleOutcome(g, next, op, mode); Sound(after.graph) && Issued(after.graph, after.next)
  {
    match op
    case UpdateNode(_, _, _, _) =>
      var at, after := Position(g.nodes, op.nodeId), UpdateNodeOutcome(g, next, op).graph;
      if after != g {
        UpdateKeepsSound(g, next, at.value, after.nodes[at.value]);
      }
    case UpdateGate(_, _) =>
      var at, after := Position(g.nodes, op.nodeId), UpdateGateOutcome(g, next, op).graph;
      if after != g {
        UpdateKeepsSound(g, next, at.value, after.nodes[at.value]);
      }
    case AddNode(_, _, _, _) => AddNodeKeepsSound(g, next, op, mode);
    case AddGate(_, _, _) => AddGateKeepsSound(g, next, op, mode);
    case DeleteNode(_, _) => DeleteKeepsSound(g, next, op, mode);
    case MoveNode(_, _) => MoveKeepsSound(g, next, op, mode);
    case _ =>
  }

  /** So does any run of them, and the permissive gate cannot reject what it leads to. */
  lemma {:induction false} RunKeepsSound(g: Graph, next: nat, ops: seq<Op>, mode: Mode)
    requires Sound(g) && Issued(g, next) && RunOps(g, next, ops, mode).reply.Ok?
    ensures var after := RunOps(g, next, ops, mode);
            Sound(after.graph) && Issued(after.graph, after.next) && PassesPermissive(after.graph)
    decreases |ops|
  {
    if ops == [] {
      PermissiveGateExact(g);
    } else {
      var before := RunOps(g, next, ops[..|ops| - 1], mode);
      RunKeepsSound(g, next, ops[..|ops| - 1], mode);
      OperationKeepsSound(before.graph, before.next, ops[|ops| - 1], mode);
      PermissiveGateExact(RunOps(g, next, ops, mode).graph);
    }
  }
}
