/** The mutable working copy an operation edits: node rows, edge rows and the position index. */
module TreeState {
  import opened Basics
  import opened FaultTree
  import opened Sorting
  import opened Traversal
  import opened Edits

  /** The source of fresh identifiers; it never repeats one. */
  class IdSupply {
    var next: nat

    constructor (next: nat)
      ensures this.next == next
    {
      this.next := next;
    }

    method NewId() returns (id: Id)
      modifies this
      ensures id == Id(old(next)) && next == old(next) + 1
    {
      id := Id(next);
      next := next + 1;
    }
  }

  /** The index holds exactly what a search of the rows from the end would find. */
  ghost predicate Indexes(index: map<Id, nat>, nodes: seq<Node>)
  {
    forall id :: (id in index <==> Position(nodes, id).Some?) &&
      (id in index ==> Position(nodes, id) == Some(index[id]))
  }

  class FaultTreeState {
    var nodes: seq<Node>
    var edges: seq<Edge>
    var nodeIndex: map<Id, nat>

    ghost predicate Valid()
      reads this
    {
      Indexes(nodeIndex, nodes)
    }

    function View(): Graph
      reads this
    {
      Graph(nodes, edges)
    }

    constructor (nodes: seq<Node>, edges: seq<Edge>)
      ensures Valid() && View() == Graph(nodes, edges)
    {
      this.nodes, this.edges, nodeIndex := nodes, edges, map[];
      new;
      RebuildIndex();
    }

    method RebuildIndex()
      modifies this`nodeIndex
      ensures Valid()
    {
      nodeIndex := map[];
      for i := 0 to |nodes|
        invariant Indexes(nodeIndex, nodes[..i])
      {
        assert nodes[..i + 1][..i] == nodes[..i];
        nodeIndex := nodeIndex[nodes[i].id := i];
      }
      assert nodes[..|nodes|] == nodes;
    }

    /** The position of the row with this identifier, through the index. */
    function GetNode(id: Id): (at: Option<nat>)
      reads this
      requires Valid()
      ensures at == Position(nodes, id)
    {
      if id in nodeIndex then Some(nodeIndex[id]) else None
    }

    method SetNode(at: nat, node: Node)
      requires Valid() && at < |nodes| && nodes[at].id == node.id
      modifies this`nodes
      ensures Valid() && View() == old(View()).(nodes := old(nodes)[at := node])
    {
      PositionAfterUpdate(nodes, at, node);
      nodes := nodes[at := node];
    }

    method AddNode(node: Node)
      requires Valid()
      modifies this`nodes, this`nodeIndex
      ensures Valid() && View() == old(View()).(nodes := old(nodes) + [node])
    {
      assert (nodes + [node])[..|nodes|] == nodes;
      nodes := nodes + [node];
      nodeIndex := nodeIndex[node.id := |nodes| - 1];
    }

    /** Appends unless the two ends are already joined in this direction. */
    method AddEdge(edge: Edge) returns (added: bool)
      requires Valid()
      modifies this`edges
      ensures added <==> !Joins(old(edges), edge.from, edge.to)
      ensures Valid() && edges == if added then old(edges) + [edge] else old(edges)
    {
      for i := 0 to |edges|
        invariant !Joins(edges[..i], edge.from, edge.to)
      {
        assert edges[..i + 1] == edges[..i] + [edges[i]];
        if edges[i].from == edge.from && edges[i].to == edge.to {
          return false;
        }
      }
      assert edges[..|edges|] == edges;
      edges := edges + [edge];
      added := true;
    }

    method FindEdgeId(from: Id, to: Id) returns (found: Option<Id>)
      ensures found.Some? <==> Joins(edges, from, to)
      ensures found.Some? ==> exists e :: e in edges && e.id == found.value && e.from == from && e.to == to
    {
      for i := 0 to |edges|
        invariant !Joins(edges[..i], from, to)
      {
        assert edges[..i + 1] == edges[..i] + [edges[i]];
        if edges[i].from == from && edges[i].to == to {
          return Some(edges[i].id);
        }
      }
      assert edges[..|edges|] == edges;
      found := None;
    }

    method RemoveEdgesByFromTo(from: Id, to: set<Id>) returns (deleted: seq<Id>)
      requires Valid()
      modifies this`edges
      ensures Valid() && edges == Without(old(edges), EdgesFromTo(old(edges), from, to))
      ensures deleted == EdgeIdsOf(Only(old(edges), EdgesFromTo(old(edges), from, to)))
    {
      ghost var cut := EdgesFromTo(edges, from, to);
      var kept: seq<Edge> := [];
      deleted := [];
      for i := 0 to |edges|
        invariant kept == Without(edges[..i], cut) && deleted == EdgeIdsOf(Only(edges[..i], cut))
      {
        var edge := edges[i];
        assert edges[..i + 1][..i] == edges[..i] && edge in edges;
        if edge.from == from && edge.to in to {
          deleted := deleted + [edge.id];
        } else {
          kept := kept + [edge];
        }
      }
      assert edges[..|edges|] == edges;
      edges := kept;
    }

    method RemoveNodes(ids: set<Id>) returns (deletedNodes: seq<Id>, deletedEdges: seq<Id>)
      modifies this
      ensures Valid() && View() == Edits.RemoveNodes(old(View()), ids)
      ensures deletedNodes == IdsOf(Only(old(nodes), NodesIn(old(nodes), ids)))
      ensures deletedEdges == EdgeIdsOf(Only(old(edges), EdgesTouching(old(edges), ids)))
    {
      ghost var doomed := NodesIn(nodes, ids);
      var keptNodes: seq<Node> := [];
      deletedNodes := [];
      for i := 0 to |nodes|
        invariant keptNodes == Without(nodes[..i], doomed) && deletedNodes == IdsOf(Only(nodes[..i], doomed))
      {
        var node := nodes[i];
        assert nodes[..i + 1][..i] == nodes[..i] && node in nodes;
        if node.id in ids {
          deletedNodes := deletedNodes + [node.id];
        } else {
          keptNodes := keptNodes + [node];
        }
      }
      assert nodes[..|nodes|] == nodes;
      nodes := keptNodes;
      RebuildIndex();
      deletedEdges := RemoveEdgesTouching(ids);
    }

    /** The second half of node removal. */
    method RemoveEdgesTouching(ids: set<Id>) returns (deleted: seq<Id>)
      requires Valid()
      modifies this`edges
      ensures Valid() && edges == Without(old(edges), EdgesTouching(old(edges), ids))
      ensures deleted == EdgeIdsOf(Only(old(edges), EdgesTouching(old(edges), ids)))
    {
      ghost var cut := EdgesTouching(edges, ids);
      var kept: seq<Edge> := [];
      deleted := [];
      for i := 0 to |edges|
        invariant kept == Without(edges[..i], cut) && deleted == EdgeIdsOf(Only(edges[..i], cut))
      {
        var edge := edges[i];
        assert edges[..i + 1][..i] == edges[..i] && edge in edges;
        if edge.from in ids || edge.to in ids {
          deleted := deleted + [edge.id];
        } else {
          kept := kept + [edge];
        }
      }
      assert edges[..|edges|] == edges;
      edges := kept;
    }

    method RemoveIncomingEdges(to: Id) returns (deleted: seq<Id>)
      requires Valid()
      modifies this`edges
      ensures Valid() && edges == Without(old(edges), EdgesInto(old(edges), to))
      ensures deleted == EdgeIdsOf(Only(old(edges), EdgesInto(old(edges), to)))
    {
      ghost var cut := EdgesInto(edges, to);
      var kept: seq<Edge> := [];
      deleted := [];
      for i := 0 to |edges|
        invariant kept == Without(edges[..i], cut) && deleted == EdgeIdsOf(Only(edges[..i], cut))
      {
        var edge := edges[i];
        assert edges[..i + 1][..i] == edges[..i] && edge in edges;
        if edge.to == to {
          deleted := deleted + [edge.id];
        } else {
          kept := kept + [edge];
        }
      }
      assert edges[..|edges|] == edges;
      edges := kept;
    }

    method ParentIdsOf(id: Id) returns (parents: seq<Id>)
      ensures parents == Ascending(ParentsOf(edges, id))
    {
      var found: set<Id> := {};
      for i := 0 to |edges|
        invariant found == ParentsOf(edges[..i], id) - {NoId}
      {
        assert edges[..i + 1] == edges[..i] + [edges[i]];
        ParentsOfSnoc(edges[..i], edges[i], id);
        if edges[i].to == id && edges[i].from != NoId {
          found := found + {edges[i].from};
        }
      }
      assert edges[..|edges|] == edges;
      AscendingSkipsBlank(ParentsOf(edges, id));
      parents := SortedSetKeys(found);
    }

    method ChildIdsOf(id: Id) returns (children: seq<Id>)
      ensures children == Ascending(ChildrenOf(edges, id))
    {
      var found: set<Id> := {};
      for i := 0 to |edges|
        invariant found == ChildrenOf(edges[..i], id) - {NoId}
      {
        assert edges[..i + 1] == edges[..i] + [edges[i]];
        ChildrenOfSnoc(edges[..i], edges[i], id);
        if edges[i].from == id && edges[i].to != NoId {
          found := found + {edges[i].to};
        }
      }
      assert edges[..|edges|] == edges;
      AscendingSkipsBlank(ChildrenOf(edges, id));
      children := SortedSetKeys(found);
    }
  }

  lemma {:induction false} PositionAfterUpdate(nodes: seq<Node>, at: nat, node: Node)
    requires at < |nodes| && nodes[at].id == node.id
    ensures forall id :: Position(nodes[at := node], id) == Position(nodes, id)
  {
    forall id ensures Position(nodes[at := node], id) == Position(nodes, id) {
      PositionByIds(nodes, nodes[at := node], id);
    }
  }

  lemma {:induction false} PositionByIds(s: seq<Node>, t: seq<Node>, id: Id)
    requires |s| == |t| && forall i :: 0 <= i < |s| ==> s[i].id == t[i].id
    ensures Position(s, id) == Position(t, id)
    decreases |s|
  {
    if s != [] {
      PositionByIds(s[..|s| - 1], t[..|t| - 1], id);
    }
  }

  lemma ParentsOfSnoc(edges: seq<Edge>, e: Edge, id: Id)
    ensures ParentsOf(edges + [e], id) == ParentsOf(edges, id) + if e.to == id then {e.from} else {}
  {
  }

  lemma ChildrenOfSnoc(edges: seq<Edge>, e: Edge, id: Id)
    ensures ChildrenOf(edges + [e], id) == ChildrenOf(edges, id) + if e.from == id then {e.to} else {}
  {
  }

  lemma AscendingSkipsBlank(s: set<Id>)
    ensures Ascending(s - {NoId}) == Ascending(s)
  {
    if NoId !in s {
      assert s - {NoId} == s;
    }
  }
}
