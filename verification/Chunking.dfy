/** Splitting a large graph into chunks for a language model's context, without losing anything. */
module Chunking {
  import opened Basics

  /** Nodes and edges as they come in; the content stands for all other fields. */
  datatype ContextNode = ContextNode(id: Id, content: nat)
  datatype ContextEdge = ContextEdge(source: Id, target: Id, content: nat)

  /** Half-open range of node positions, the nodes there, and the edges inside the chunk. */
  datatype Chunk = Chunk(start: nat, end: nat, nodes: seq<ContextNode>, edges: seq<ContextEdge>)

  /** An edge between chunks, with the 1-based chunks of its ends (0: end not found). */
  datatype CrossEdge = CrossEdge(edge: ContextEdge, sourceChunk: nat, targetChunk: nat)

  datatype Payload = Payload(chunks: seq<Chunk>, crossEdges: seq<CrossEdge>)

  const CHUNK_SIZE: nat := 400

  function ChunkCount(n: nat): nat
  {
    (n + CHUNK_SIZE - 1) / CHUNK_SIZE
  }

  /** Where chunk c starts among n nodes. */
  function Start(c: nat, n: nat): (r: nat)
    ensures r <= n
  {
    if c * CHUNK_SIZE <= n then c * CHUNK_SIZE else n
  }

  lemma StartsAscend(c: nat, n: nat)
    ensures Start(c, n) <= Start(c + 1, n) <= Start(c, n) + CHUNK_SIZE
    ensures n > 0 ==> Start(ChunkCount(n), n) == n
  {
  }

  function NodesOf(nodes: seq<ContextNode>, c: nat): seq<ContextNode>
  {
    StartsAscend(c, |nodes|);
    nodes[Start(c, |nodes|)..Start(c + 1, |nodes|)]
  }

  /** The 1-based chunk of the last node with this identifier; 0 for a blank or unknown one. */
  function Home(nodes: seq<ContextNode>, id: Id): nat
    decreases |nodes|
  {
    if nodes == [] then 0
    else if id != NoId && nodes[|nodes| - 1].id == id then (|nodes| - 1) / CHUNK_SIZE + 1
    else Home(nodes[..|nodes| - 1], id)
  }

  /** The chunk an edge belongs to, or 0 for the cross-chunk list. */
  function EdgeHome(nodes: seq<ContextNode>, e: ContextEdge): nat
  {
    if Home(nodes, e.source) == Home(nodes, e.target) then Home(nodes, e.source) else 0
  }

  /** The edges that belong to chunk c (0: to none), in their order. */
  function EdgesOf(nodes: seq<ContextNode>, edges: seq<ContextEdge>, c: nat): seq<ContextEdge>
    decreases |edges|
  {
    if edges == [] then []
    else
      var kept := EdgesOf(nodes, edges[..|edges| - 1], c);
      if EdgeHome(nodes, edges[|edges| - 1]) == c then kept + [edges[|edges| - 1]] else kept
  }

  function Crossing(nodes: seq<ContextNode>, e: ContextEdge): CrossEdge
  {
    CrossEdge(e, Home(nodes, e.source), Home(nodes, e.target))
  }

  // ---------- building the payload ----------

  method SplitNodes(nodes: seq<ContextNode>) returns (chunkNodes: seq<seq<ContextNode>>, nodeChunkIndex: map<Id, nat>)
    ensures |chunkNodes| == ChunkCount(|nodes|)
    ensures IsSplit(chunkNodes, nodes)
    ensures Indexes(nodeChunkIndex, nodes)
  {
    chunkNodes := seq(ChunkCount(|nodes|), _ => []);
    nodeChunkIndex := map[];
    for i := 0 to |nodes|
      invariant |chunkNodes| == ChunkCount(|nodes|)
      invariant IsSplit(chunkNodes, nodes[..i])
      invariant Indexes(nodeChunkIndex, nodes[..i])
    {
      var n, chunk := nodes[i], i / CHUNK_SIZE + 1;
      assert nodes[..i + 1] == nodes[..i] + [n];
      SplitSnoc(chunkNodes, nodes[..i], n);
      IndexesSnoc(nodeChunkIndex, nodes[..i], n);
      chunkNodes := chunkNodes[chunk - 1 := chunkNodes[chunk - 1] + [n]];
      if n.id != NoId {
        nodeChunkIndex := nodeChunkIndex[n.id := chunk];
      }
    }
    assert nodes[..|nodes|] == nodes;
  }

  ghost predicate Indexes(m: map<Id, nat>, nodes: seq<ContextNode>)
  {
    (forall id :: id in m ==> m[id] == Home(nodes, id)) && (forall id :: id !in m ==> Home(nodes, id) == 0)
  }

  lemma IndexesSnoc(m: map<Id, nat>, nodes: seq<ContextNode>, n: ContextNode)
    requires Indexes(m, nodes)
    ensures Indexes(if n.id != NoId then m[n.id := |nodes| / CHUNK_SIZE + 1] else m, nodes + [n])
  {
    assert (nodes + [n])[..|nodes|] == nodes;
  }

  ghost predicate IsSplit(chunkNodes: seq<seq<ContextNode>>, nodes: seq<ContextNode>)
  {
    forall c :: 0 <= c < |chunkNodes| ==> chunkNodes[c] == NodesOf(nodes, c)
  }

  lemma SplitSnoc(chunkNodes: seq<seq<ContextNode>>, nodes: seq<ContextNode>, n: ContextNode)
    requires IsSplit(chunkNodes, nodes) && |nodes| / CHUNK_SIZE < |chunkNodes|
    ensures IsSplit(chunkNodes[|nodes| / CHUNK_SIZE := chunkNodes[|nodes| / CHUNK_SIZE] + [n]], nodes + [n])
  {
    forall c | 0 <= c < |chunkNodes|
      ensures NodesOf(nodes + [n], c) == if c == |nodes| / CHUNK_SIZE then chunkNodes[c] + [n] else chunkNodes[c]
    {
      NodesOfSnoc(nodes, n, c);
    }
  }

  lemma NodesOfSnoc(nodes: seq<ContextNode>, n: ContextNode, c: nat)
    ensures NodesOf(nodes + [n], c) == if c == |nodes| / CHUNK_SIZE then NodesOf(nodes, c) + [n] else NodesOf(nodes, c)
  {
    var len := |nodes|;
    StartsAscend(c, len);
    StartsAscend(c, len + 1);
    if c == len / CHUNK_SIZE {
      assert Start(c, len + 1) == Start(c, len) && Start(c + 1, len + 1) == len + 1 && Start(c + 1, len) == len;
      assert (nodes + [n])[Start(c, len)..len + 1] == nodes[Start(c, len)..len] + [n];
    } else if c < len / CHUNK_SIZE {
      assert Start(c, len + 1) == Start(c, len) && Start(c + 1, len + 1) == Start(c + 1, len);
    } else {
      assert Start(c, len + 1) == Start(c + 1, len + 1) && Start(c, len) == Start(c + 1, len);
    }
  }

  method SplitEdges(nodes: seq<ContextNode>, edges: seq<ContextEdge>, nodeChunkIndex: map<Id, nat>, chunkCount: nat)
      returns (chunkEdges: seq<seq<ContextEdge>>, crossEdges: seq<CrossEdge>)
    requires chunkCount == ChunkCount(|nodes|)
    requires Indexes(nodeChunkIndex, nodes)
    ensures |chunkEdges| == chunkCount
    ensures forall c :: 0 <= c < chunkCount ==> chunkEdges[c] == EdgesOf(nodes, edges, c + 1)
    ensures IsCrossList(nodes, crossEdges, EdgesOf(nodes, edges, 0))
  {
    chunkEdges := seq(chunkCount, _ => []);
    crossEdges := [];
    for i := 0 to |edges|
      invariant |chunkEdges| == chunkCount
      invariant forall c :: 0 <= c < chunkCount ==> chunkEdges[c] == EdgesOf(nodes, edges[..i], c + 1)
      invariant IsCrossList(nodes, crossEdges, EdgesOf(nodes, edges[..i], 0))
    {
      var e := edges[i];
      assert edges[..i + 1][..i] == edges[..i];
      var srcChunk := if e.source in nodeChunkIndex then nodeChunkIndex[e.source] else 0;
      var tgtChunk := if e.target in nodeChunkIndex then nodeChunkIndex[e.target] else 0;
      if srcChunk > 0 && tgtChunk > 0 && srcChunk == tgtChunk {
        HomeIsAChunk(nodes, e.source);
        chunkEdges := chunkEdges[srcChunk - 1 := chunkEdges[srcChunk - 1] + [e]];
      } else {
        crossEdges := crossEdges + [CrossEdge(e, srcChunk, tgtChunk)];
      }
    }
    assert edges[..|edges|] == edges;
  }

  /** The cross-chunk list is these edges, in order, each with the chunks of its ends. */
  ghost predicate IsCrossList(nodes: seq<ContextNode>, crossEdges: seq<CrossEdge>, edges: seq<ContextEdge>)
  {
    |crossEdges| == |edges| && forall i :: 0 <= i < |edges| ==> crossEdges[i] == Crossing(nodes, edges[i])
  }

  ghost predicate IsPartition(p: Payload, nodes: seq<ContextNode>, edges: seq<ContextEdge>)
  {
    && |p.chunks| == ChunkCount(|nodes|)
    && (forall c :: 0 <= c < |p.chunks| ==>
          p.chunks[c] == Chunk(Start(c, |nodes|), Start(c + 1, |nodes|), NodesOf(nodes, c),
            EdgesOf(nodes, edges, c + 1)))
    && IsCrossList(nodes, p.crossEdges, EdgesOf(nodes, edges, 0))
  }

  /** A graph of at most 400 nodes is not split. */
  method BuildChunkedGraphPayload(nodes: seq<ContextNode>, edges: seq<ContextEdge>) returns (payload: Option<Payload>)
    ensures payload.None? <==> |nodes| <= 400
    ensures payload.Some? ==> IsPartition(payload.value, nodes, edges)
  {
    if |nodes| <= CHUNK_SIZE {
      return None;
    }
    var chunkNodes, nodeChunkIndex := SplitNodes(nodes);
    var chunkEdges, crossEdges := SplitEdges(nodes, edges, nodeChunkIndex, |chunkNodes|);
    var chunks := [];
    for i := 0 to |chunkNodes|
      invariant |chunks| == i
      invariant forall c :: 0 <= c < i ==>
        chunks[c] == Chunk(Start(c, |nodes|), Start(c + 1, |nodes|), NodesOf(nodes, c), EdgesOf(nodes, edges, c + 1))
    {
      var start := i * CHUNK_SIZE;
      var end := start + |chunkNodes[i]|;
      StartsAscend(i, |nodes|);
      assert start == Start(i, |nodes|) && end == Start(i + 1, |nodes|);
      chunks := chunks + [Chunk(start, end, chunkNodes[i], chunkEdges[i])];
    }
    payload := Some(Payload(chunks, crossEdges));
  }

  // ---------- nothing is lost ----------

  function JoinedNodes(chunks: seq<Chunk>): seq<ContextNode>
  {
    if chunks == [] then [] else JoinedNodes(chunks[..|chunks| - 1]) + chunks[|chunks| - 1].nodes
  }

  function JoinedEdges(chunks: seq<Chunk>): seq<ContextEdge>
  {
    if chunks == [] then [] else JoinedEdges(chunks[..|chunks| - 1]) + chunks[|chunks| - 1].edges
  }

  lemma {:induction false} JoinedPrefix(p: Payload, nodes: seq<ContextNode>, edges: seq<ContextEdge>, k: nat)
    requires IsPartition(p, nodes, edges) && k <= |p.chunks|
    ensures JoinedNodes(p.chunks[..k]) == nodes[..Start(k, |nodes|)]
  {
    if k > 0 {
      JoinedPrefix(p, nodes, edges, k - 1);
      assert p.chunks[..k][..k - 1] == p.chunks[..k - 1];
      StartsAscend(k - 1, |nodes|);
    }
  }

  /** The chunks' nodes, one after the other, are the original nodes; each chunk is the slice its range
      says and holds between 1 and 400 nodes. */
  lemma NodesAreKept(p: Payload, nodes: seq<ContextNode>, edges: seq<ContextEdge>)
    requires IsPartition(p, nodes, edges) && nodes != []
    ensures JoinedNodes(p.chunks) == nodes
    ensures forall c :: 0 <= c < |p.chunks| ==> IsSlice(p.chunks[c], nodes)
  {
    JoinedPrefix(p, nodes, edges, |p.chunks|);
    assert p.chunks[..|p.chunks|] == p.chunks;
    StartsAscend(0, |nodes|);
    assert nodes[..|nodes|] == nodes;
    forall c | 0 <= c < |p.chunks| ensures IsSlice(p.chunks[c], nodes) {
      ChunkIsFilled(c, |nodes|);
    }
  }

  /** Between 1 and 400 nodes, the ones at the positions the range says. */
  predicate IsSlice(k: Chunk, nodes: seq<ContextNode>)
  {
    k.start < k.end <= |nodes| && k.end - k.start <= 400 && k.nodes == nodes[k.start..k.end]
  }

  lemma ChunkIsFilled(c: nat, n: nat)
    requires c < ChunkCount(n)
    ensures Start(c, n) < Start(c + 1, n) <= Start(c, n) + CHUNK_SIZE
  {
    StartsAscend(c, n);
    assert c * CHUNK_SIZE < n;
  }

  /** A positive home is the chunk of a node with the identifier. */
  lemma {:induction false} HomeNode(nodes: seq<ContextNode>, id: Id) returns (i: nat)
    requires Home(nodes, id) > 0
    ensures id != NoId && i < |nodes| && nodes[i].id == id && i / CHUNK_SIZE + 1 == Home(nodes, id)
    decreases |nodes|
  {
    if id != NoId && nodes[|nodes| - 1].id == id {
      i := |nodes| - 1;
    } else {
      i := HomeNode(nodes[..|nodes| - 1], id);
    }
  }

  /** No node with the identifier comes after its home. */
  lemma {:induction false} HomeIsLast(nodes: seq<ContextNode>, i: nat)
    requires i < |nodes| && nodes[i].id != NoId
    ensures i / CHUNK_SIZE + 1 <= Home(nodes, nodes[i].id)
    decreases |nodes|
  {
    if nodes[|nodes| - 1].id != nodes[i].id {
      HomeIsLast(nodes[..|nodes| - 1], i);
    }
  }

  lemma HomeIsAChunk(nodes: seq<ContextNode>, id: Id)
    ensures Home(nodes, id) <= ChunkCount(|nodes|)
  {
    if Home(nodes, id) > 0 {
      var i := HomeNode(nodes, id);
    }
  }

  lemma {:induction false} EdgesOfAreAtHome(nodes: seq<ContextNode>, edges: seq<ContextEdge>, c: nat)
    ensures forall e :: e in EdgesOf(nodes, edges, c) <==> e in edges && EdgeHome(nodes, e) == c
    decreases |edges|
  {
    if edges != [] {
      EdgesOfAreAtHome(nodes, edges[..|edges| - 1], c);
      assert edges == edges[..|edges| - 1] + [edges[|edges| - 1]];
    }
  }

  lemma HomeChunkHolds(nodes: seq<ContextNode>, id: Id)
    requires Home(nodes, id) > 0
    ensures id != NoId && exists n :: n in NodesOf(nodes, Home(nodes, id) - 1) && n.id == id
  {
    var i := HomeNode(nodes, id);
    var c := i / CHUNK_SIZE;
    StartsAscend(c, |nodes|);
    assert Start(c, |nodes|) <= i < Start(c + 1, |nodes|);
    assert NodesOf(nodes, c)[i - Start(c, |nodes|)] == nodes[i];
  }

  /** An edge inside a chunk has both of its ends among the chunk's nodes. */
  lemma EndsAreInside(p: Payload, nodes: seq<ContextNode>, edges: seq<ContextEdge>, c: nat, e: ContextEdge)
    requires IsPartition(p, nodes, edges) && c < |p.chunks| && e in p.chunks[c].edges
    ensures e in edges && e.source != NoId && e.target != NoId
    ensures exists n :: n in p.chunks[c].nodes && n.id == e.source
    ensures exists n :: n in p.chunks[c].nodes && n.id == e.target
  {
    EdgesOfAreAtHome(nodes, edges, c + 1);
    assert p.chunks[c].edges == EdgesOf(nodes, edges, c + 1) && p.chunks[c].nodes == NodesOf(nodes, c);
    assert EdgeHome(nodes, e) == c + 1;
    HomeChunkHolds(nodes, e.source);
    HomeChunkHolds(nodes, e.target);
  }

  function CrossingEdges(xs: seq<CrossEdge>): seq<ContextEdge>
  {
    seq(|xs|, i requires 0 <= i < |xs| => xs[i].edge)
  }

  lemma {:induction false} JoinedEdgesSnoc(nodes: seq<ContextNode>, edges: seq<ContextEdge>, e: ContextEdge, k: nat)
    ensures multiset(Gathered(nodes, edges + [e], k))
            == multiset(Gathered(nodes, edges, k)) + if EdgeHome(nodes, e) <= k then multiset{e} else multiset{}
  {
    assert (edges + [e])[..|edges|] == edges;
    if k > 0 {
      JoinedEdgesSnoc(nodes, edges, e, k - 1);
    }
  }

  /** The edges of homes 0 to k, list after list. */
  function Gathered(nodes: seq<ContextNode>, edges: seq<ContextEdge>, k: nat): seq<ContextEdge>
  {
    if k == 0 then EdgesOf(nodes, edges, 0) else Gathered(nodes, edges, k - 1) + EdgesOf(nodes, edges, k)
  }

  lemma {:induction false} GatheredIsAll(nodes: seq<ContextNode>, edges: seq<ContextEdge>)
    ensures multiset(Gathered(nodes, edges, ChunkCount(|nodes|))) == multiset(edges)
    decreases |edges|
  {
    if edges == [] {
      GatheredNone(nodes, ChunkCount(|nodes|));
    } else {
      var init, e := edges[..|edges| - 1], edges[|edges| - 1];
      GatheredIsAll(nodes, init);
      JoinedEdgesSnoc(nodes, init, e, ChunkCount(|nodes|));
      assert edges == init + [e];
      HomeIsAChunk(nodes, e.source);
    }
  }

  lemma {:induction false} GatheredNone(nodes: seq<ContextNode>, k: nat)
    ensures Gathered(nodes, [], k) == []
  {
    if k > 0 {
      GatheredNone(nodes, k - 1);
    }
  }

  lemma JoinedEdgesPrefix(chunks: seq<Chunk>, k: nat)
    requires 0 < k <= |chunks|
    ensures JoinedEdges(chunks[..k]) == JoinedEdges(chunks[..k - 1]) + chunks[k - 1].edges
  {
    assert chunks[..k][..k - 1] == chunks[..k - 1];
  }

  ghost predicate HoldEdges(chunks: seq<Chunk>, nodes: seq<ContextNode>, edges: seq<ContextEdge>)
  {
    forall c :: 0 <= c < |chunks| ==> chunks[c].edges == EdgesOf(nodes, edges, c + 1)
  }

  lemma {:induction false} JoinedEdgesAreGathered(chunks: seq<Chunk>, nodes: seq<ContextNode>, edges: seq<ContextEdge>,
                                                  k: nat)
    requires HoldEdges(chunks, nodes, edges) && k <= |chunks|
    ensures EdgesOf(nodes, edges, 0) + JoinedEdges(chunks[..k]) == Gathered(nodes, edges, k)
  {
    if k > 0 {
      JoinedEdgesAreGathered(chunks, nodes, edges, k - 1);
      JoinedEdgesPrefix(chunks, k);
      AppendAssociates(EdgesOf(nodes, edges, 0), JoinedEdges(chunks[..k - 1]), chunks[k - 1].edges);
    }
  }

  lemma AppendAssociates(a: seq<ContextEdge>, b: seq<ContextEdge>, c: seq<ContextEdge>)
    ensures a + (b + c) == (a + b) + c
  {
  }

  /** Every edge lands exactly once, in one chunk or in the cross-chunk list. */
  lemma EdgesAreKept(p: Payload, nodes: seq<ContextNode>, edges: seq<ContextEdge>)
    requires IsPartition(p, nodes, edges)
    ensures multiset(JoinedEdges(p.chunks)) + multiset(CrossingEdges(p.crossEdges)) == multiset(edges)
  {
    JoinedEdgesAreGathered(p.chunks, nodes, edges, |p.chunks|);
    assert p.chunks[..|p.chunks|] == p.chunks;
    assert CrossingEdges(p.crossEdges) == EdgesOf(nodes, edges, 0);
    GatheredIsAll(nodes, edges);
  }

  /** A cross-chunk edge really crosses, or lacks an end: it could not be in any chunk. */
  lemma CrossEdgesCross(p: Payload, nodes: seq<ContextNode>, edges: seq<ContextEdge>, x: CrossEdge)
    requires IsPartition(p, nodes, edges) && x in p.crossEdges
    ensures x.edge in edges && (x.sourceChunk != x.targetChunk || x.sourceChunk == 0)
    ensures x.sourceChunk == Home(nodes, x.edge.source) && x.targetChunk == Home(nodes, x.edge.target)
  {
    EdgesOfAreAtHome(nodes, edges, 0);
  }

  /** Order is kept: of two edges with the same home, the earlier one stays the earlier. */
  lemma {:induction false} OrderIsKept(nodes: seq<ContextNode>, edges: seq<ContextEdge>, i: nat, j: nat)
    requires i < j < |edges| && EdgeHome(nodes, edges[i]) == EdgeHome(nodes, edges[j])
    ensures var c := EdgeHome(nodes, edges[i]);
            var r, s := |EdgesOf(nodes, edges[..i], c)|, |EdgesOf(nodes, edges[..j], c)|;
            r < s < |EdgesOf(nodes, edges, c)| && EdgesOf(nodes, edges, c)[r] == edges[i] &&
              EdgesOf(nodes, edges, c)[s] == edges[j]
  {
    var c := EdgeHome(nodes, edges[i]);
    PlaceOf(nodes, edges, c, i, |edges|);
    PlaceOf(nodes, edges, c, j, |edges|);
    PlaceOf(nodes, edges, c, i, j);
    assert edges[..|edges|] == edges;
  }

  lemma {:induction false} PlaceOf(nodes: seq<ContextNode>, edges: seq<ContextEdge>, c: nat, i: nat, n: nat)
    requires i < n <= |edges| && EdgeHome(nodes, edges[i]) == c
    ensures var r := |EdgesOf(nodes, edges[..i], c)|;
            r < |EdgesOf(nodes, edges[..n], c)| && EdgesOf(nodes, edges[..n], c)[r] == edges[i]
    decreases n
  {
    assert edges[..n][..n - 1] == edges[..n - 1];
    if i < n - 1 {
      PlaceOf(nodes, edges, c, i, n - 1);
    }
  }
}
