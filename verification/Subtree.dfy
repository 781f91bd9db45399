/** The get_subtree tool: the part of the graph within a number of steps from a node. */
module Subtree {
  import opened Basics
  import opened Reachability
  import opened FaultTree
  import opened Sorting
  import opened Traversal
  import opened TreeState
  import opened GraphEffects

  datatype Placed = Placed(node: Node, depth: nat)

  datatype Part = Part(nodes: seq<Placed>, edges: seq<Edge>)

  const DEFAULT_DEPTH: nat := 3

  /** A missing or non-positive depth means three. */
  function DepthBound(maxDepth: Option<int>): nat
  {
    if maxDepth.None? || maxDepth.value <= 0 then DEFAULT_DEPTH else maxDepth.value
  }

  function EdgesWithin(edges: seq<Edge>, ids: set<Id>): set<Edge>
  {
    set e | e in edges && e.from in ids && e.to in ids
  }

  /** The visited nodes with these identifiers, with their depths; identifiers without a node are skipped. */
  function Place(nodes: seq<Node>, visited: map<Id, nat>, ids: seq<Id>): seq<Placed>
  {
    if ids == [] then []
    else
      var init, a := ids[..|ids| - 1], ids[|ids| - 1];
      var n := NodeWith(nodes, a);
      if n.None? || a !in visited then Place(nodes, visited, init)
        else Place(nodes, visited, init) + [Placed(n.value, visited[a])]
  }

  lemma {:induction false} PlacedMembers(nodes: seq<Node>, visited: map<Id, nat>, ids: seq<Id>)
    ensures forall p :: p in Place(nodes, visited, ids) <==>
      p.node.id in ids && p.node.id in visited && NodeWith(nodes, p.node.id) == Some(p.node) &&
        p.depth == visited[p.node.id]
    decreases |ids|
  {
    if ids != [] {
      PlacedMembers(nodes, visited, ids[..|ids| - 1]);
      assert ids == ids[..|ids| - 1] + [ids[|ids| - 1]];
    }
  }

  /** The map of depths is the one the bounded search promises. */
  ghost predicate DepthsOf(edges: seq<Edge>, root: Id, bound: nat, visited: map<Id, nat>)
  {
    && (forall a :: a in visited <==> Within(ArcsOf(edges), root, a, bound))
    && (forall a :: a in visited ==> visited[a] <= bound && Distance(ArcsOf(edges), root, a, visited[a]))
  }

  lemma AscendingVisited(visited: map<Id, nat>)
    ensures forall a :: a in Ascending(visited.Keys) <==> a in visited && a != NoId
  {
    AscendingListsAll(visited.Keys);
  }

  /** A node is reported exactly when it lies within the bound, and at its distance from the root. */
  lemma ReportsDistances(g: Graph, root: Id, bound: nat, visited: map<Id, nat>, n: Node, depth: nat)
    requires Keyed(g) && DepthsOf(g.edges, root, bound, visited)
    ensures Placed(n, depth) in Place(g.nodes, visited, Ascending(visited.Keys)) <==>
            n in g.nodes && depth <= bound && Distance(ArcsOf(g.edges), root, n.id, depth)
  {
    AscendingVisited(visited);
    PlacedMembers(g.nodes, visited, Ascending(visited.Keys));
    NodeWithExact(g.nodes, n.id);
    if depth <= bound && Distance(ArcsOf(g.edges), root, n.id, depth) {
      assert Within(ArcsOf(g.edges), root, n.id, bound);
      OneDistance(ArcsOf(g.edges), root, n.id, depth, visited[n.id]);
    }
  }

  lemma OneDistance(r: set<Arc>, a: Id, b: Id, d: nat, e: nat)
    requires Distance(r, a, b, d) && Distance(r, a, b, e)
    ensures d == e
  {
  }

  predicate Ascend(nodes: seq<Placed>)
  {
    forall i, j :: 0 <= i < j < |nodes| ==>
      nodes[i].node.id.Id? && nodes[j].node.id.Id? && nodes[i].node.id.serial < nodes[j].node.id.serial
  }

  lemma {:induction false} PlacedAscend(nodes: seq<Node>, visited: map<Id, nat>, ids: seq<Id>)
    requires Ascends(ids)
    ensures Ascend(Place(nodes, visited, ids))
    decreases |ids|
  {
    if ids != [] {
      var init := ids[..|ids| - 1];
      PlacedAscend(nodes, visited, init);
      PlacedMembers(nodes, visited, init);
      var placed := Place(nodes, visited, init);
      forall i | 0 <= i < |placed| ensures placed[i].node.id in init {
        assert placed[i] in placed;
      }
    }
  }

  /** The answer of get_subtree: exactly the nodes within the bound, each once, ascending by identifier and
      with its distance from the root; and exactly the edges whose two ends lie within the bound, in row order. */
  ghost predicate IsSubtree(g: Graph, root: Id, bound: nat, part: Part)
  {
    var r := ArcsOf(g.edges);
    && (forall n, depth: nat :: Placed(n, depth) in part.nodes <==>
          n in g.nodes && depth <= bound && Distance(r, root, n.id, depth))
    && Ascend(part.nodes)
    && (forall e :: e in part.edges <==> e in g.edges && Within(r, root, e.from, bound) && Within(r, root, e.to, bound))
    && KeepsOrder(g.edges, part.edges)
  }

  lemma PartIsSubtree(g: Graph, root: Id, bound: nat, visited: map<Id, nat>)
    requires Keyed(g) && DepthsOf(g.edges, root, bound, visited)
    ensures IsSubtree(g, root, bound, Part(Place(g.nodes, visited, Ascending(visited.Keys)),
                                           Only(g.edges, EdgesWithin(g.edges, visited.Keys))))
  {
    forall n, depth: nat
      ensures Placed(n, depth) in Place(g.nodes, visited, Ascending(visited.Keys)) <==>
              n in g.nodes && depth <= bound && Distance(ArcsOf(g.edges), root, n.id, depth)
    {
      ReportsDistances(g, root, bound, visited, n, depth);
    }
    AscendingListsAll(visited.Keys);
    PlacedAscend(g.nodes, visited, Ascending(visited.Keys));
    OnlyMembers(g.edges, EdgesWithin(g.edges, visited.Keys));
    var places := OnlyKeepsOrder(g.edges, EdgesWithin(g.edges, visited.Keys));
  }

  /** None when the root is not a node, else its subtree; without a positive depth three levels deep. */
  method ApplyGetSubtree(state: FaultTreeState, root: Id, maxDepth: Option<int>) returns (part: Option<Part>)
    requires state.Valid()
    ensures part.None? <==> Position(state.nodes, root).None?
    ensures part.Some? && Keyed(state.View()) ==>
      IsSubtree(state.View(), root, if maxDepth.Some? && maxDepth.value > 0 then maxDepth.value else 3, part.value)
  {
    if state.GetNode(root).None? {
      return None;
    }
    var depths := SubtreeDepths(state.edges, root, DepthBound(maxDepth));
    AscendingVisited(depths);
    var ids := SortedSetKeys(depths.Keys);
    var nodes := SelectNodes(state, depths, ids);
    var edges := SelectEdges(state.edges, depths.Keys);
    if Keyed(state.View()) {
      PartIsSubtree(state.View(), root, DepthBound(maxDepth), depths);
    }
    part := Some(Part(nodes, edges));
  }

  method SelectNodes(state: FaultTreeState, depths: map<Id, nat>, ids: seq<Id>) returns (nodes: seq<Placed>)
    requires state.Valid() && forall a :: a in ids ==> a in depths
    ensures nodes == Place(state.nodes, depths, ids)
  {
    nodes := [];
    for i := 0 to |ids|
      invariant nodes == Place(state.nodes, depths, ids[..i])
    {
      assert ids[..i + 1][..i] == ids[..i] && ids[i] in ids;
      var at := state.GetNode(ids[i]);
      if at.Some? {
        nodes := nodes + [Placed(state.nodes[at.value], depths[ids[i]])];
      }
    }
    assert ids[..|ids|] == ids;
  }

  method SelectEdges(all: seq<Edge>, allowed: set<Id>) returns (edges: seq<Edge>)
    ensures edges == Only(all, EdgesWithin(all, allowed))
  {
    edges := [];
    ghost var chosen := EdgesWithin(all, allowed);
    for i := 0 to |all|
      invariant edges == Only(all[..i], chosen)
    {
      assert all[..i + 1][..i] == all[..i] && all[i] in all;
      if all[i].from in allowed && all[i].to in allowed {
        edges := edges + [all[i]];
      }
    }
    assert all[..|all|] == all;
  }
}
