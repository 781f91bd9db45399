/** The stored fault tree: typed nodes and directed edges, in row order. */
module FaultTree {
  import opened Basics
  import opened Reachability

  /** Any type string other than the four known ones is OtherKind. */
  datatype NodeKind = TopEvent | MidEvent | BasicEvent | Gate | OtherKind

  datatype GateType = And | Or | Not

  /** gate is None when the stored gate type is missing or not one of AND, OR, NOT. */
  datatype Node = Node(id: Id, kind: NodeKind, gate: Option<GateType>, name: string,
                       description: Option<string>, investigation: Option<string>)

  datatype Edge = Edge(id: Id, from: Id, to: Id)

  datatype Graph = Graph(nodes: seq<Node>, edges: seq<Edge>)

  predicate Blank(e: Edge)
  {
    e.from == NoId || e.to == NoId
  }

  /** The connections the traversals follow: edges with a blank end are skipped. */
  function ArcsOf(edges: seq<Edge>): set<Arc>
  {
    set e | e in edges && !Blank(e) :: Arc(e.from, e.to)
  }

  lemma ArcsOfSnoc(edges: seq<Edge>, e: Edge)
    ensures ArcsOf(edges + [e]) == ArcsOf(edges) + if Blank(e) then {} else {Arc(e.from, e.to)}
  {
  }

  /** The position of the last node with this identifier. */
  function Position(nodes: seq<Node>, id: Id): (r: Option<nat>)
    ensures r.Some? ==> r.value < |nodes| && nodes[r.value].id == id
  {
    if nodes == [] then None
    else if nodes[|nodes| - 1].id == id then Some(|nodes| - 1)
    else Position(nodes[..|nodes| - 1], id)
  }

  predicate HasNode(nodes: seq<Node>, id: Id)
  {
    exists n :: n in nodes && n.id == id
  }

  function NodeWith(nodes: seq<Node>, id: Id): Option<Node>
  {
    var p := Position(nodes, id);
    if p.Some? then Some(nodes[p.value]) else None
  }

  lemma {:induction false} PositionComplete(nodes: seq<Node>, id: Id)
    ensures Position(nodes, id).None? <==> forall n :: n in nodes ==> n.id != id
  {
    if nodes != [] {
      PositionComplete(nodes[..|nodes| - 1], id);
      assert nodes == nodes[..|nodes| - 1] + [nodes[|nodes| - 1]];
    }
  }

  function IdsOf(nodes: seq<Node>): (r: seq<Id>)
  {
    seq(|nodes|, i requires 0 <= i < |nodes| => nodes[i].id)
  }

  function EdgeIdsOf(edges: seq<Edge>): (r: seq<Id>)
  {
    seq(|edges|, i requires 0 <= i < |edges| => edges[i].id)
  }

  ghost predicate DistinctNodes(nodes: seq<Node>)
  {
    forall i, j :: 0 <= i < j < |nodes| ==> nodes[i].id != nodes[j].id
  }

  ghost predicate DistinctEdges(edges: seq<Edge>)
  {
    forall i, j :: 0 <= i < j < |edges| ==> edges[i].id != edges[j].id
  }

  /** Primary keys: identifiers of rows are set and unique. */
  ghost predicate Keyed(g: Graph)
  {
    && DistinctNodes(g.nodes)
    && DistinctEdges(g.edges)
    && forall n :: n in g.nodes ==> n.id != NoId
  }

  predicate Under(id: Id, next: nat)
  {
    id.Id? ==> id.serial < next
  }

  /** Every identifier the graph mentions was handed out before next. */
  ghost predicate Issued(g: Graph, next: nat)
  {
    && (forall n :: n in g.nodes ==> Under(n.id, next))
    && (forall e :: e in g.edges ==> Under(e.id, next) && Under(e.from, next) && Under(e.to, next))
  }
}
