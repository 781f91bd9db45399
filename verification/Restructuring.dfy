/** The structural promises of delete_node, add_gate and move_node, for graphs of any size. */
module Restructuring {
  import opened Basics
  import opened Reachability
  import opened Rewiring
  import opened FaultTree
  import opened Sorting
  import opened Traversal
  import opened Edits
  import opened GraphEffects

  // ---------- delete_node ----------

  lemma RemovalArcs(g: Graph, doomed: set<Id>)
    ensures ArcsOf(RemoveNodes(g, doomed).edges) == CutOff(ArcsOf(g.edges), doomed)
  {
    CutArcs(g.edges, EdgesTouching(g.edges, doomed));
    var r := ArcsOf(g.edges);
    forall x ensures x in ArcsOf(RemoveNodes(g, doomed).edges) <==> x in CutOff(r, doomed) {
      if x in r && x !in CutOff(r, doomed) {
        var e :| e in g.edges && !Blank(e) && Arc(e.from, e.to) == x;
        assert e in EdgesTouching(g.edges, doomed);
      }
    }
  }

  lemma SplicePairs(g: Graph, op: Op, x: Arc)
    requires op.DeleteNode? && !op.deleteChildren && op.nodeId != NoId
    ensures x in SpliceArcs(g, op) <==>
      Arc(x.from, op.nodeId) in ArcsOf(g.edges) && Arc(op.nodeId, x.to) in ArcsOf(g.edges) && x.from != x.to
  {
    var n := op.nodeId;
    PairsMembers(Ascending(ParentsOf(g.edges, n)), Ascending(ChildrenOf(g.edges, n)));
    AscendingListsAll(ParentsOf(g.edges, n));
    AscendingListsAll(ChildrenOf(g.edges, n));
  }

  /** The relation after a deletion: spliced when the children stay, cut off with them otherwise. */
  lemma DeletedArcs(g: Graph, next: nat, op: Op)
    requires op.DeleteNode? && op.nodeId != NoId && Arc(op.nodeId, op.nodeId) !in ArcsOf(g.edges)
    ensures ArcsOf(Deleted(g, next, op).graph.edges) ==
            if op.deleteChildren then CutOff(ArcsOf(g.edges), Doomed(g, op)) else SplicedOut(ArcsOf(g.edges), op.nodeId)
  {
    var r, n, doomed, arcs := ArcsOf(g.edges), op.nodeId, Doomed(g, op), SpliceArcs(g, op);
    RemovalArcs(g, doomed);
    if !op.deleteChildren {
      forall x ensures x in arcs <==> Arc(x.from, n) in r && Arc(n, x.to) in r && x.from != x.to {
        SplicePairs(g, op, x);
      }
    }
    ConnectArcs(RemoveNodes(g, doomed).edges, next, arcs);
    if !op.deleteChildren {
      assert doomed == {n};
      forall x | x in ArcSet(arcs) ensures x in SplicedOut(r, n) {
        assert Arc(x.from, n).to == n && Arc(n, x.to).from == n;
      }
    }
  }

  lemma DoomedClosed(g: Graph, op: Op)
    requires op.DeleteNode? && op.deleteChildren
    ensures forall x :: x in ArcsOf(g.edges) && x.from in Doomed(g, op) ==> x.to in Doomed(g, op)
  {
    var r := ArcsOf(g.edges);
    forall x | x in r && x.from in Doomed(g, op) ensures x.to in Doomed(g, op) {
      DescendantsExact(g.edges, op.nodeId, x.from);
      DescendantsExact(g.edges, op.nodeId, x.to);
      ReachesSelf(r, op.nodeId);
      WalkArc(r, x.from, x.to);
      ReachesJoin(r, op.nodeId, x.from, x.to);
    }
  }

  /** Deleting preserves the rest: which surviving node reaches which is unchanged, whether the
      children are spliced to the parents or all descendants go too. */
  lemma DeleteKeepsReachability(g: Graph, next: nat, op: Op, mode: Mode, a: Id, b: Id)
    requires Keyed(g) && op.DeleteNode? && DeleteNodeOutcome(g, next, op, mode).reply.Ok?
    requires Arc(op.nodeId, op.nodeId) !in ArcsOf(g.edges)
    requires a !in Doomed(g, op) && b !in Doomed(g, op)
    ensures Reaches(ArcsOf(DeleteNodeOutcome(g, next, op, mode).graph.edges), a, b) <==> Reaches(ArcsOf(g.edges), a, b)
  {
    DeletedArcs(g, next, op);
    if op.deleteChildren {
      DoomedClosed(g, op);
      CutOffKeepsReach(ArcsOf(g.edges), Doomed(g, op), a, b);
    } else {
      SpliceKeepsReach(ArcsOf(g.edges), op.nodeId, a, b);
    }
  }

  /** Both ends of every edge are nodes. */
  ghost predicate EndsExist(g: Graph)
  {
    forall e :: e in g.edges ==> HasNode(g.nodes, e.from) && HasNode(g.nodes, e.to)
  }

  /** The node is its own parent and has another neighbour: the splice then joins the deleted node again. */
  ghost predicate SplicesItself(g: Graph, n: Id)
  {
    var r := ArcsOf(g.edges);
    Arc(n, n) in r && exists m :: m != n && (Arc(n, m) in r || Arc(m, n) in r)
  }

  /** Every edge after a deletion is an old one between survivors or joins two survivors. */
  lemma DeletedEdges(g: Graph, next: nat, op: Op, e: Edge)
    requires op.DeleteNode? && op.nodeId != NoId && (op.deleteChildren || !SplicesItself(g, op.nodeId))
    requires e in Deleted(g, next, op).graph.edges
    ensures e.from !in Doomed(g, op) && e.to !in Doomed(g, op)
    ensures e in g.edges ||
      (Arc(e.from, op.nodeId) in ArcsOf(g.edges) && Arc(op.nodeId, e.to) in ArcsOf(g.edges) && !op.deleteChildren)
  {
    var doomed := Doomed(g, op);
    var left := RemoveNodes(g, doomed);
    WithoutMembers(g.edges, EdgesTouching(g.edges, doomed));
    ConnectAppends(left.edges, next, SpliceArcs(g, op));
    if e !in left.edges {
      assert e in Connect(left.edges, next, SpliceArcs(g, op)).1;
      SplicePairs(g, op, Arc(e.from, e.to));
    }
  }

  /** Exactly the doomed nodes disappear. */
  lemma DeletedNodes(g: Graph, next: nat, op: Op, n: Node)
    requires op.DeleteNode?
    ensures n in Deleted(g, next, op).graph.nodes <==> n in g.nodes && n.id !in Doomed(g, op)
  {
    WithoutMembers(g.nodes, NodesIn(g.nodes, Doomed(g, op)));
  }

  /** A deletion leaves no edge dangling, except when the children stay and the node splices itself. */
  lemma DeleteDanglesIff(g: Graph, next: nat, op: Op, mode: Mode)
    requires Keyed(g) && EndsExist(g)
    requires op.DeleteNode? && DeleteNodeOutcome(g, next, op, mode).reply.Ok?
    ensures EndsExist(DeleteNodeOutcome(g, next, op, mode).graph) <==> op.deleteChildren || !SplicesItself(g, op.nodeId)
  {
    if op.deleteChildren || !SplicesItself(g, op.nodeId) {
      DeletedEndsExist(g, next, op);
    } else {
      SplicingItselfDangles(g, next, op);
    }
  }

  lemma DeletedEndsExist(g: Graph, next: nat, op: Op)
    requires op.DeleteNode? && op.nodeId != NoId && EndsExist(g) && (op.deleteChildren || !SplicesItself(g, op.nodeId))
    ensures EndsExist(Deleted(g, next, op).graph)
  {
    var g' := Deleted(g, next, op).graph;
    forall e | e in g'.edges ensures HasNode(g'.nodes, e.from) && HasNode(g'.nodes, e.to) {
      DeletedEdges(g, next, op, e);
      forall id | id == e.from || id == e.to ensures HasNode(g'.nodes, id) {
        assert HasNode(g.nodes, id);
        var n :| n in g.nodes && n.id == id;
        DeletedNodes(g, next, op, n);
      }
    }
  }

  lemma SplicingItselfDangles(g: Graph, next: nat, op: Op)
    requires op.DeleteNode? && op.nodeId != NoId && !op.deleteChildren && SplicesItself(g, op.nodeId)
    ensures !EndsExist(Deleted(g, next, op).graph)
  {
    var n, arcs := op.nodeId, SpliceArcs(g, op);
    var m :| m != n && (Arc(n, m) in ArcsOf(g.edges) || Arc(m, n) in ArcsOf(g.edges));
    forall x | x in arcs ensures !ArcBlank(x) {
      SplicePairs(g, op, x);
    }
    SplicePairs(g, op, Arc(n, m));
    SplicePairs(g, op, Arc(m, n));
    ConnectArcs(RemoveNodes(g, {n}).edges, next, arcs);
    var g' := Deleted(g, next, op).graph;
    assert Doomed(g, op) == {n};
    var x := if Arc(n, m) in ArcsOf(g.edges) then Arc(n, m) else Arc(m, n);
    assert x in ArcSet(arcs);
    var e :| e in g'.edges && !Blank(e) && Arc(e.from, e.to) == x;
    forall k ensures !(k in g'.nodes && k.id == n) {
      DeletedNodes(g, next, op, k);
    }
    assert !HasNode(g'.nodes, n);
  }

  const TOP_NODE := Node(Id(0), TopEvent, None, "top", None, None)
  const LOOP_NODE := Node(Id(1), MidEvent, None, "mid", None, None)

  /** A top event with one child that is its own parent. */
  const LOOPED := Graph([TOP_NODE, LOOP_NODE], [Edge(Id(2), Id(0), Id(1)), Edge(Id(3), Id(1), Id(1))])

  lemma LoopedIsFine()
    ensures Keyed(LOOPED) && EndsExist(LOOPED) && SplicesItself(LOOPED, Id(1))
    ensures NodeWith(LOOPED.nodes, Id(1)) == Some(LOOP_NODE)
  {
    var nodes, edges := LOOPED.nodes, LOOPED.edges;
    assert Position(nodes, Id(1)) == Some(1);
    assert nodes[0] in nodes && nodes[1] in nodes;
    assert HasNode(nodes, Id(0)) && HasNode(nodes, Id(1));
    assert edges[0] in edges && edges[1] in edges;
    assert Arc(Id(1), Id(1)) in ArcsOf(edges) && Arc(Id(0), Id(1)) in ArcsOf(edges);
  }

  /** A concrete delete that leaves an edge dangling: the edge from the top event to the deleted node
      comes back. */
  lemma DeleteLeavesDangling(next: nat, mode: Mode)
    ensures EndsExist(LOOPED) && DeleteNodeOutcome(LOOPED, next, DeleteNode(Id(1), false), mode).reply.Ok?
    ensures !EndsExist(DeleteNodeOutcome(LOOPED, next, DeleteNode(Id(1), false), mode).graph)
  {
    LoopedIsFine();
    var parents := ParentsOf(LOOPED.edges, Id(1));
    assert LOOPED.edges[0] in LOOPED.edges && Id(0) in parents;
    AscendingListsAll(parents);
    assert Id(0) in Ascending(parents);
    DeleteDanglesIff(LOOPED, next, DeleteNode(Id(1), false), mode);
  }

  // ---------- add_gate ----------

  lemma {:induction false} NoRefusal(g: Graph, parent: Id, children: seq<Id>)
    requires FirstRefusal(g, parent, children).None?
    ensures forall c :: c in children ==> ChildRefusal(g, parent, c).None?
    decreases |children|
  {
    if children != [] {
      NoRefusal(g, parent, children[..|children| - 1]);
      assert children == children[..|children| - 1] + [children[|children| - 1]];
    }
  }

  ghost function ChildSet(op: Op): set<Id>
    requires op.AddGate?
  {
    set c | c in op.childIds && c != NoId
  }

  /** What add_gate has checked once it succeeds: every child hangs below the parent and is no top event. */
  lemma GateChecked(g: Graph, next: nat, op: Op, mode: Mode)
    requires Keyed(g) && op.AddGate? && AddGateOutcome(g, next, op, mode).reply.Ok?
    ensures op.parent != NoId && NodeWith(g.nodes, op.parent).Some? &&
            NodeWith(g.nodes, op.parent).value.kind != BasicEvent
    ensures forall c :: c in ChildSet(op) ==>
      c != op.parent && NodeWith(g.nodes, c).Some? && NodeWith(g.nodes, c).value.kind != TopEvent
      && Arc(op.parent, c) in ArcsOf(g.edges)
    ensures ChildSet(op) != {}
    ensures ChildSet(op) == set c | c in Distinct(op.childIds)
  {
    NoRefusal(g, op.parent, op.childIds);
    DistinctMembers(op.childIds);
    NodeWithExact(g.nodes, op.parent);
    forall c | c in ChildSet(op) ensures Arc(op.parent, c) in ArcsOf(g.edges) {
      assert Joins(g.edges, op.parent, c);
      var e :| e in g.edges && e.from == op.parent && e.to == c;
      assert !Blank(e);
    }
    assert Distinct(op.childIds)[0] in Distinct(op.childIds);
    assert Distinct(op.childIds)[0] in ChildSet(op);
  }

  lemma FanMembers(p: Id, gate: Id, children: seq<Id>)
    ensures forall x :: x in [Arc(p, gate)] + Fan(gate, children) <==>
      x == Arc(p, gate) || (x.from == gate && x.to in children)
  {
    var arcs := [Arc(p, gate)] + Fan(gate, children);
    forall x ensures x in arcs <==> x == Arc(p, gate) || (x.from == gate && x.to in children) {
      if x.from == gate && x.to in children {
        var i :| 0 <= i < |children| && children[i] == x.to;
        assert arcs[i + 1] == x;
      }
      if x == Arc(p, gate) {
        assert arcs[0] == x;
      }
    }
  }

  lemma CutChildrenArcs(edges: seq<Edge>, p: Id, cs: set<Id>)
    ensures forall x :: x in ArcsOf(Without(edges, EdgesFromTo(edges, p, cs))) <==>
      x in ArcsOf(edges) && !(x.from == p && x.to in cs)
  {
    var cut, r := EdgesFromTo(edges, p, cs), ArcsOf(edges);
    CutArcs(edges, cut);
    forall x | x in r ensures (exists e :: e in cut && Arc(e.from, e.to) == x) <==> x.from == p && x.to in cs {
      var e :| e in edges && !Blank(e) && Arc(e.from, e.to) == x;
      assert e in cut <==> x.from == p && x.to in cs;
    }
  }

  lemma GateFits(g: Graph, next: nat, op: Op, mode: Mode)
    requires Keyed(g) && Issued(g, next) && op.AddGate? && AddGateOutcome(g, next, op, mode).reply.Ok?
    ensures CanGate(ArcsOf(g.edges), op.parent, ChildSet(op), Id(next))
  {
    GateChecked(g, next, op, mode);
    forall x | x in ArcsOf(g.edges) ensures x.from != Id(next) && x.to != Id(next) {
      var e :| e in g.edges && !Blank(e) && Arc(e.from, e.to) == x;
    }
    NodeWithExact(g.nodes, op.parent);
  }

  lemma GateArcs(g: Graph, next: nat, op: Op, mode: Mode)
    requires Keyed(g) && Issued(g, next) && op.AddGate? && AddGateOutcome(g, next, op, mode).reply.Ok?
    ensures CanGate(ArcsOf(g.edges), op.parent, ChildSet(op), Id(next))
    ensures ArcsOf(AddGateOutcome(g, next, op, mode).graph.edges) ==
            Gated(ArcsOf(g.edges), op.parent, ChildSet(op), Id(next))
  {
    GateFits(g, next, op, mode);
    GateChecked(g, next, op, mode);
    ReconnectedArcs(g.edges, next + 1, op.parent, ChildSet(op), Id(next), Distinct(op.childIds));
  }

  lemma ReconnectedArcs(edges: seq<Edge>, next: nat, p: Id, cs: set<Id>, gate: Id, children: seq<Id>)
    requires p != NoId && gate != NoId && NoId !in cs && cs == set c | c in children
    ensures ArcsOf(Connect(Without(edges, EdgesFromTo(edges, p, cs)), next, [Arc(p, gate)] + Fan(gate, children)).0)
            == Gated(ArcsOf(edges), p, cs, gate)
  {
    var arcs := [Arc(p, gate)] + Fan(gate, children);
    FanMembers(p, gate, children);
    CutChildrenArcs(edges, p, cs);
    forall x ensures x in arcs <==> x == Arc(p, gate) || (x.from == gate && x.to in cs) {
    }
    ConnectArcs(Without(edges, EdgesFromTo(edges, p, cs)), next, arcs);
  }

  /** Gate insertion is a transparent splice: reachability between old nodes is unchanged, no cycle
      appears, the gate's only parent is the given one and its children are the requested ids. */
  lemma GateIsTransparent(g: Graph, next: nat, op: Op, mode: Mode)
    requires Keyed(g) && Issued(g, next) && op.AddGate? && AddGateOutcome(g, next, op, mode).reply.Ok?
    ensures var r, s := ArcsOf(g.edges), ArcsOf(AddGateOutcome(g, next, op, mode).graph.edges);
            && (forall a, b :: a != Id(next) && b != Id(next) ==> (Reaches(s, a, b) <==> Reaches(r, a, b)))
            && (Acyclic(r) ==> Acyclic(s))
            && (forall a :: Arc(a, Id(next)) in s <==> a == op.parent)
            && (forall c :: Arc(Id(next), c) in s <==> c in op.childIds && c != NoId)
            && (forall c :: c in ChildSet(op) ==> Arc(op.parent, c) !in s)
  {
    GateArcs(g, next, op, mode);
    var r, s := ArcsOf(g.edges), ArcsOf(AddGateOutcome(g, next, op, mode).graph.edges);
    forall a, b | a != Id(next) && b != Id(next) ensures Reaches(s, a, b) <==> Reaches(r, a, b) {
      GateKeepsReach(r, op.parent, ChildSet(op), Id(next), a, b);
    }
    if Acyclic(r) {
      GateKeepsAcyclic(r, op.parent, ChildSet(op), Id(next));
    }
  }

  // ---------- move_node ----------

  lemma MoveChecked(g: Graph, next: nat, op: Op, mode: Mode)
    requires Keyed(g) && op.MoveNode? && MoveNodeOutcome(g, next, op, mode).reply.Ok?
    ensures op.nodeId != NoId && op.newParent != NoId && !Reaches(ArcsOf(g.edges), op.nodeId, op.newParent)
    ensures NodeWith(g.nodes, op.nodeId).Some? && NodeWith(g.nodes, op.nodeId).value.kind != TopEvent
    ensures NodeWith(g.nodes, op.newParent).Some? && NodeWith(g.nodes, op.newParent).value.kind != BasicEvent
  {
    DescendantsExact(g.edges, op.nodeId, op.newParent);
  }

  lemma MovedArcs(g: Graph, next: nat, op: Op)
    requires op.MoveNode? && op.nodeId != NoId && op.newParent != NoId
    ensures ArcsOf(Moved(g, next, op).graph.edges) == Reparented(ArcsOf(g.edges), op.nodeId, op.newParent)
  {
    var cut := EdgesInto(g.edges, op.nodeId);
    var arcs := [Arc(op.newParent, op.nodeId)];
    CutArcs(g.edges, cut);
    assert ArcSet(arcs) == {Arc(op.newParent, op.nodeId)};
    ConnectArcs(Without(g.edges, cut), next, arcs);
    forall x | x in ArcsOf(g.edges) && x.to == op.nodeId ensures x !in ArcsOf(Without(g.edges, cut)) {
      var e :| e in g.edges && !Blank(e) && Arc(e.from, e.to) == x;
      assert e in cut;
    }
  }

  /** Moving is safe and local: no cycle, one incoming edge, all edges into other nodes as before,
      and the same descendants. */
  lemma MoveIsLocal(g: Graph, next: nat, op: Op, mode: Mode)
    requires Keyed(g) && Acyclic(ArcsOf(g.edges))
    requires op.MoveNode? && MoveNodeOutcome(g, next, op, mode).reply.Ok?
    ensures var r, s := ArcsOf(g.edges), ArcsOf(MoveNodeOutcome(g, next, op, mode).graph.edges);
            && Acyclic(s)
            && (forall a :: Arc(a, op.nodeId) in s <==> a == op.newParent)
            && (forall b :: Reaches(s, op.nodeId, b) <==> Reaches(r, op.nodeId, b))
    ensures var edges := MoveNodeOutcome(g, next, op, mode).graph.edges;
            && (forall e: Edge :: e.to != op.nodeId ==> (e in edges <==> e in g.edges))
            && (forall i, j :: 0 <= i < j < |edges| ==> edges[i].to != op.nodeId || edges[j].to != op.nodeId)
  {
    MoveChecked(g, next, op, mode);
    MovedArcs(g, next, op);
    var r := ArcsOf(g.edges);
    MoveKeepsAcyclic(r, op.nodeId, op.newParent);
    forall b ensures Reaches(Reparented(r, op.nodeId, op.newParent), op.nodeId, b) <==> Reaches(r, op.nodeId, b) {
      MoveKeepsDescendants(r, op.nodeId, op.newParent, b);
    }
    var kept := Without(g.edges, EdgesInto(g.edges, op.nodeId));
    WithoutMembers(g.edges, EdgesInto(g.edges, op.nodeId));
    ConnectOne(kept, next, Arc(op.newParent, op.nodeId));
    assert forall i :: 0 <= i < |kept| ==> kept[i] in kept;
  }
}
