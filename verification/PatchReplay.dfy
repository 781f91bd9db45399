/** The patch log: all upserts in order and then all deletes rebuild the edited graph. */
module PatchReplay {
  import opened Basics
  import opened Reachability
  import opened FaultTree
  import opened Edits
  import opened TreeState
  import opened GraphEffects
  import opened Restructuring
  import opened Soundness

  // ---------- applying a patch ----------

  function TextAfter(old_: Option<string>, patched: Option<string>): Option<string>
  {
    if patched.Some? then TextField(patched.value) else old_
  }

  function Overlay(n: Node, p: NodePatch): Node
  {
    Node(n.id, if p.kind.Some? then p.kind.value else n.kind, if p.gate.Some? then p.gate else n.gate,
         if p.name.Some? then p.name.value else n.name,
         TextAfter(n.description, p.description), TextAfter(n.investigation, p.investigation))
  }

  function NewNode(p: NodePatch): Node
  {
    Overlay(Node(p.id, OtherKind, None, "", None, None), p)
  }

  function Patched(nodes: seq<Node>, p: NodePatch): seq<Node>
  {
    if nodes == [] then []
    else
      var last := nodes[|nodes| - 1];
      Patched(nodes[..|nodes| - 1], p) + [if last.id == p.id then Overlay(last, p) else last]
  }

  function UpsertNode(nodes: seq<Node>, p: NodePatch): seq<Node>
  {
    if HasNode(nodes, p.id) then Patched(nodes, p) else nodes + [NewNode(p)]
  }

  function UpsertNodes(nodes: seq<Node>, ps: seq<NodePatch>): seq<Node>
  {
    if ps == [] then nodes else UpsertNode(UpsertNodes(nodes, ps[..|ps| - 1]), ps[|ps| - 1])
  }

  function DropNodes(nodes: seq<Node>, ids: set<Id>): seq<Node>
  {
    if nodes == [] then []
    else
      var last := nodes[|nodes| - 1];
      var kept := DropNodes(nodes[..|nodes| - 1], ids);
      if last.id in ids then kept else kept + [last]
  }

  predicate HasEdgeRow(edges: seq<Edge>, id: Id)
  {
    exists e :: e in edges && e.id == id
  }

  function Replaced(edges: seq<Edge>, e: Edge): seq<Edge>
  {
    if edges == [] then []
    else
      var last := edges[|edges| - 1];
      Replaced(edges[..|edges| - 1], e) + [if last.id == e.id then e else last]
  }

  function UpsertEdge(edges: seq<Edge>, e: Edge): seq<Edge>
  {
    if HasEdgeRow(edges, e.id) then Replaced(edges, e) else edges + [e]
  }

  function UpsertEdges(edges: seq<Edge>, es: seq<Edge>): seq<Edge>
  {
    if es == [] then edges else UpsertEdge(UpsertEdges(edges, es[..|es| - 1]), es[|es| - 1])
  }

  function DropEdges(edges: seq<Edge>, ids: set<Id>): seq<Edge>
  {
    if edges == [] then []
    else
      var last := edges[|edges| - 1];
      var kept := DropEdges(edges[..|edges| - 1], ids);
      if last.id in ids then kept else kept + [last]
  }

  function Members(ids: seq<Id>): set<Id>
  {
    set x | x in ids
  }

  function ReplayNodes(nodes: seq<Node>, p: Patch): seq<Node>
  {
    DropNodes(UpsertNodes(nodes, p.upsertNodes), Members(p.deleteNodes))
  }

  function ReplayEdges(edges: seq<Edge>, p: Patch): seq<Edge>
  {
    DropEdges(UpsertEdges(edges, p.upsertEdges), Members(p.deleteEdges))
  }

  function Replay(g: Graph, p: Patch): Graph
  {
    Graph(ReplayNodes(g.nodes, p), ReplayEdges(g.edges, p))
  }

  // ---------- dropping commutes with upserting other rows ----------

  lemma {:induction false} DropKeepsRow(nodes: seq<Node>, ids: set<Id>, id: Id)
    requires id !in ids
    ensures HasNode(DropNodes(nodes, ids), id) <==> HasNode(nodes, id)
    decreases |nodes|
  {
    if nodes != [] {
      var init, last := nodes[..|nodes| - 1], nodes[|nodes| - 1];
      DropKeepsRow(init, ids, id);
      RowSnoc(init, last, id);
      RowSnoc(DropNodes(init, ids), last, id);
      assert nodes == init + [last];
    }
  }

  lemma RowSnoc(nodes: seq<Node>, n: Node, id: Id)
    ensures HasNode(nodes + [n], id) <==> HasNode(nodes, id) || n.id == id
  {
    assert n in nodes + [n];
    assert forall m :: m in nodes ==> m in nodes + [n];
  }

  lemma DropSnoc(nodes: seq<Node>, n: Node, ids: set<Id>)
    ensures DropNodes(nodes + [n], ids) == if n.id in ids then DropNodes(nodes, ids) else DropNodes(nodes, ids) + [n]
  {
    assert (nodes + [n])[..|nodes|] == nodes;
  }

  lemma PatchedSnoc(nodes: seq<Node>, n: Node, p: NodePatch)
    ensures Patched(nodes + [n], p) == Patched(nodes, p) + [if n.id == p.id then Overlay(n, p) else n]
  {
    assert (nodes + [n])[..|nodes|] == nodes;
  }

  lemma {:induction false} DropPatched(nodes: seq<Node>, p: NodePatch, ids: set<Id>)
    requires p.id !in ids
    ensures DropNodes(Patched(nodes, p), ids) == Patched(DropNodes(nodes, ids), p)
    decreases |nodes|
  {
    if nodes != [] {
      var init, last := nodes[..|nodes| - 1], nodes[|nodes| - 1];
      DropPatched(init, p, ids);
      DropSnoc(Patched(init, p), if last.id == p.id then Overlay(last, p) else last, ids);
      PatchedSnoc(DropNodes(init, ids), last, p);
    }
  }

  lemma DropUpserted(nodes: seq<Node>, p: NodePatch, ids: set<Id>)
    requires p.id !in ids
    ensures DropNodes(UpsertNode(nodes, p), ids) == UpsertNode(DropNodes(nodes, ids), p)
  {
    DropKeepsRow(nodes, ids, p.id);
    DropPatched(nodes, p, ids);
    DropSnoc(nodes, NewNode(p), ids);
  }

  lemma {:induction false} DropUpserts(nodes: seq<Node>, ps: seq<NodePatch>, ids: set<Id>)
    requires forall p :: p in ps ==> p.id !in ids
    ensures DropNodes(UpsertNodes(nodes, ps), ids) == UpsertNodes(DropNodes(nodes, ids), ps)
    decreases |ps|
  {
    if ps != [] {
      DropUpserts(nodes, ps[..|ps| - 1], ids);
      DropUpserted(UpsertNodes(nodes, ps[..|ps| - 1]), ps[|ps| - 1], ids);
    }
  }

  lemma {:induction false} DropTwice(nodes: seq<Node>, a: set<Id>, b: set<Id>)
    ensures DropNodes(DropNodes(nodes, a), b) == DropNodes(nodes, a + b)
    decreases |nodes|
  {
    if nodes != [] {
      var init, last := nodes[..|nodes| - 1], nodes[|nodes| - 1];
      DropTwice(init, a, b);
      DropSnoc(DropNodes(init, a), last, b);
    }
  }

  lemma {:induction false} UpsertsJoin(nodes: seq<Node>, ps: seq<NodePatch>, qs: seq<NodePatch>)
    ensures UpsertNodes(nodes, ps + qs) == UpsertNodes(UpsertNodes(nodes, ps), qs)
    decreases |qs|
  {
    if qs == [] {
      assert ps + qs == ps;
    } else {
      UpsertsJoin(nodes, ps, qs[..|qs| - 1]);
      assert (ps + qs)[..|ps + qs| - 1] == ps + qs[..|qs| - 1];
    }
  }

  // ---------- the same for edges ----------

  lemma EdgeRowSnoc(edges: seq<Edge>, e: Edge, id: Id)
    ensures HasEdgeRow(edges + [e], id) <==> HasEdgeRow(edges, id) || e.id == id
  {
    assert e in edges + [e];
    assert forall f :: f in edges ==> f in edges + [e];
  }

  lemma DropEdgeSnoc(edges: seq<Edge>, e: Edge, ids: set<Id>)
    ensures DropEdges(edges + [e], ids) == if e.id in ids then DropEdges(edges, ids) else DropEdges(edges, ids) + [e]
  {
    assert (edges + [e])[..|edges|] == edges;
  }

  lemma ReplacedSnoc(edges: seq<Edge>, last: Edge, e: Edge)
    ensures Replaced(edges + [last], e) == Replaced(edges, e) + [if last.id == e.id then e else last]
  {
    assert (edges + [last])[..|edges|] == edges;
  }

  lemma {:induction false} DropKeepsEdgeRow(edges: seq<Edge>, ids: set<Id>, id: Id)
    requires id !in ids
    ensures HasEdgeRow(DropEdges(edges, ids), id) <==> HasEdgeRow(edges, id)
    decreases |edges|
  {
    if edges != [] {
      var init, last := edges[..|edges| - 1], edges[|edges| - 1];
      DropKeepsEdgeRow(init, ids, id);
      EdgeRowSnoc(init, last, id);
      EdgeRowSnoc(DropEdges(init, ids), last, id);
      assert edges == init + [last];
    }
  }

  lemma {:induction false} DropReplaced(edges: seq<Edge>, e: Edge, ids: set<Id>)
    requires e.id !in ids
    ensures DropEdges(Replaced(edges, e), ids) == Replaced(DropEdges(edges, ids), e)
    decreases |edges|
  {
    if edges != [] {
      var init, last := edges[..|edges| - 1], edges[|edges| - 1];
      DropReplaced(init, e, ids);
      DropEdgeSnoc(Replaced(init, e), if last.id == e.id then e else last, ids);
      ReplacedSnoc(DropEdges(init, ids), last, e);
    }
  }

  lemma {:induction false} DropEdgeUpserts(edges: seq<Edge>, es: seq<Edge>, ids: set<Id>)
    requires forall e :: e in es ==> e.id !in ids
    ensures DropEdges(UpsertEdges(edges, es), ids) == UpsertEdges(DropEdges(edges, ids), es)
    decreases |es|
  {
    if es != [] {
      var before, e := UpsertEdges(edges, es[..|es| - 1]), es[|es| - 1];
      DropEdgeUpserts(edges, es[..|es| - 1], ids);
      DropKeepsEdgeRow(before, ids, e.id);
      DropReplaced(before, e, ids);
      DropEdgeSnoc(before, e, ids);
    }
  }

  lemma {:induction false} DropEdgesTwice(edges: seq<Edge>, a: set<Id>, b: set<Id>)
    ensures DropEdges(DropEdges(edges, a), b) == DropEdges(edges, a + b)
    decreases |edges|
  {
    if edges != [] {
      var init, last := edges[..|edges| - 1], edges[|edges| - 1];
      DropEdgesTwice(init, a, b);
      DropEdgeSnoc(DropEdges(init, a), last, b);
    }
  }

  lemma {:induction false} EdgeUpsertsJoin(edges: seq<Edge>, es: seq<Edge>, fs: seq<Edge>)
    ensures UpsertEdges(edges, es + fs) == UpsertEdges(UpsertEdges(edges, es), fs)
    decreases |fs|
  {
    if fs == [] {
      assert es + fs == es;
    } else {
      EdgeUpsertsJoin(edges, es, fs[..|fs| - 1]);
      assert (es + fs)[..|es + fs| - 1] == es + fs[..|fs| - 1];
    }
  }

  // ---------- merging ----------

  /** Nothing the first patch deletes comes back in the second. */
  ghost predicate NoReturn(p: Patch, q: Patch)
  {
    && (forall u :: u in q.upsertNodes ==> u.id !in p.deleteNodes)
    && (forall e :: e in q.upsertEdges ==> e.id !in p.deleteEdges)
  }

  lemma ReplayMerged(g: Graph, p: Patch, q: Patch)
    requires NoReturn(p, q)
    ensures Replay(g, MergePatch(p, q)) == Replay(Replay(g, p), q)
  {
    var dp, dq := Members(p.deleteNodes), Members(q.deleteNodes);
    assert Members(p.deleteNodes + q.deleteNodes) == dp + dq;
    UpsertsJoin(g.nodes, p.upsertNodes, q.upsertNodes);
    DropUpserts(UpsertNodes(g.nodes, p.upsertNodes), q.upsertNodes, dp);
    DropTwice(UpsertNodes(UpsertNodes(g.nodes, p.upsertNodes), q.upsertNodes), dp, dq);
    var ep, eq := Members(p.deleteEdges), Members(q.deleteEdges);
    assert Members(p.deleteEdges + q.deleteEdges) == ep + eq;
    EdgeUpsertsJoin(g.edges, p.upsertEdges, q.upsertEdges);
    DropEdgeUpserts(UpsertEdges(g.edges, p.upsertEdges), q.upsertEdges, ep);
    DropEdgesTwice(UpsertEdges(UpsertEdges(g.edges, p.upsertEdges), q.upsertEdges), ep, eq);
  }

  // ---------- one operation ----------

  lemma {:induction false} DropIsWithout(nodes: seq<Node>, doomed: set<Node>, ids: set<Id>)
    requires forall n :: n in nodes ==> (n in doomed <==> n.id in ids)
    ensures DropNodes(nodes, ids) == Without(nodes, doomed)
    decreases |nodes|
  {
    if nodes != [] {
      assert nodes[|nodes| - 1] in nodes;
      DropIsWithout(nodes[..|nodes| - 1], doomed, ids);
    }
  }

  lemma {:induction false} DropEdgesIsWithout(edges: seq<Edge>, cut: set<Edge>, ids: set<Id>)
    requires forall e :: e in edges ==> (e in cut <==> e.id in ids)
    ensures DropEdges(edges, ids) == Without(edges, cut)
    decreases |edges|
  {
    if edges != [] {
      assert edges[|edges| - 1] in edges;
      DropEdgesIsWithout(edges[..|edges| - 1], cut, ids);
    }
  }

  lemma IdsOfMembers(nodes: seq<Node>)
    ensures forall x :: x in IdsOf(nodes) <==> HasNode(nodes, x)
  {
    forall x | HasNode(nodes, x) ensures x in IdsOf(nodes) {
      var n :| n in nodes && n.id == x;
      var i :| 0 <= i < |nodes| && nodes[i] == n;
      assert IdsOf(nodes)[i] == x;
    }
  }

  lemma EdgeIdsOfMembers(edges: seq<Edge>)
    ensures forall x :: x in EdgeIdsOf(edges) <==> HasEdgeRow(edges, x)
  {
    forall x | HasEdgeRow(edges, x) ensures x in EdgeIdsOf(edges) {
      var e :| e in edges && e.id == x;
      var i :| 0 <= i < |edges| && edges[i] == e;
      assert EdgeIdsOf(edges)[i] == x;
    }
  }

  /** With unique keys, an edge is cut exactly when its identifier is listed as deleted. */
  lemma CutById(edges: seq<Edge>, cut: set<Edge>, e: Edge)
    requires DistinctEdges(edges) && e in edges
    ensures e in cut <==> e.id in EdgeIdsOf(Only(edges, cut))
  {
    OnlyMembers(edges, cut);
    EdgeIdsOfMembers(Only(edges, cut));
    if HasEdgeRow(Only(edges, cut), e.id) {
      var f :| f in Only(edges, cut) && f.id == e.id;
      var i :| 0 <= i < |edges| && edges[i] == e;
      var j :| 0 <= j < |edges| && edges[j] == f;
    }
  }

  lemma {:induction false} FreshUpserts(edges: seq<Edge>, added: seq<Edge>)
    requires DistinctEdges(added) && forall e, f :: e in edges && f in added ==> e.id != f.id
    ensures UpsertEdges(edges, added) == edges + added
    decreases |added|
  {
    if added == [] {
      assert edges + added == edges;
    } else {
      var init, last := added[..|added| - 1], added[|added| - 1];
      FreshUpserts(edges, init);
      assert last in added;
      assert forall i :: 0 <= i < |init| ==> init[i] in added && init[i].id != last.id;
      assert !HasEdgeRow(edges + init, last.id);
      assert (edges + init) + [last] == edges + added;
    }
  }

  /** Cutting and connecting is what its edge patch says. */
  lemma RewiredReplays(edges: seq<Edge>, cut: set<Edge>, next: nat, arcs: seq<Arc>, p: Patch)
    requires DistinctEdges(edges) && forall e :: e in edges ==> Under(e.id, next)
    requires forall e :: e in cut ==> e in edges
    requires p.upsertEdges == Connect(Without(edges, cut), next, arcs).1 && p.deleteEdges == EdgeIdsOf(Only(edges, cut))
    ensures ReplayEdges(edges, p) == Connect(Without(edges, cut), next, arcs).0
  {
    var kept := Without(edges, cut);
    var (es, added) := Connect(kept, next, arcs);
    var ids := Members(p.deleteEdges);
    ConnectAppends(kept, next, arcs);
    FreshUpserts(edges, added);
    forall e | e in edges ensures e in cut <==> e.id in ids {
      CutById(edges, cut, e);
    }
    OnlyMembers(edges, cut);
    EdgeIdsOfMembers(Only(edges, cut));
    forall e | e in added ensures e.id !in ids && e !in cut {
    }
    forall e | e in edges + added ensures e in cut <==> e.id in ids {
    }
    DropEdgesIsWithout(edges + added, cut, ids);
    WithoutAppend(edges, added, cut);
    WithoutNone(added, cut);
  }

  predicate Fresh(id: Id, next: nat)
  {
    id.Id? && id.serial >= next
  }

  /** Deleted rows were issued before and are gone; upserted and surviving rows are old or fresh. */
  ghost predicate NodePatchFits(nodes: seq<Node>, next: nat, p: Patch, after: seq<Node>)
  {
    && (forall u :: u in p.upsertNodes ==> HasNode(nodes, u.id) || Fresh(u.id, next))
    && (forall id :: id in p.deleteNodes ==> Under(id, next) && !HasNode(after, id))
    && (forall id :: HasNode(after, id) ==> HasNode(nodes, id) || Fresh(id, next))
  }

  ghost predicate EdgePatchFits(edges: seq<Edge>, next: nat, p: Patch, after: seq<Edge>)
  {
    && (forall e :: e in p.upsertEdges ==> Fresh(e.id, next))
    && (forall id :: id in p.deleteEdges ==> Under(id, next) && !HasEdgeRow(after, id))
    && (forall id :: HasEdgeRow(after, id) ==> HasEdgeRow(edges, id) || Fresh(id, next))
  }

  ghost predicate NodesMatch(nodes: seq<Node>, next: nat, p: Patch, after: seq<Node>)
  {
    ReplayNodes(nodes, p) == after && NodePatchFits(nodes, next, p, after)
  }

  ghost predicate EdgesMatch(edges: seq<Edge>, next: nat, p: Patch, after: seq<Edge>)
  {
    ReplayEdges(edges, p) == after && EdgePatchFits(edges, next, p, after)
  }

  lemma RewiredMatches(edges: seq<Edge>, cut: set<Edge>, base: nat, next: nat, arcs: seq<Arc>, p: Patch)
    requires DistinctEdges(edges) && forall e :: e in edges ==> Under(e.id, base)
    requires forall e :: e in cut ==> e in edges
    requires base <= next
    requires p.upsertEdges == Connect(Without(edges, cut), next, arcs).1 && p.deleteEdges == EdgeIdsOf(Only(edges, cut))
    ensures EdgesMatch(edges, base, p, Connect(Without(edges, cut), next, arcs).0)
  {
    RewiredReplays(edges, cut, next, arcs, p);
    var kept := Without(edges, cut);
    var (es, added) := Connect(kept, next, arcs);
    WithoutMembers(edges, cut);
    OnlyMembers(edges, cut);
    EdgeIdsOfMembers(Only(edges, cut));
    ConnectAppends(kept, next, arcs);
    forall id | id in p.deleteEdges ensures Under(id, base) && !HasEdgeRow(es, id) {
      forall e | e in es ensures e.id != id {
        if e in kept {
          CutById(edges, cut, e);
        }
      }
    }
  }

  lemma EdgesUntouched(edges: seq<Edge>, next: nat, p: Patch)
    requires p.upsertEdges == [] && p.deleteEdges == []
    ensures EdgesMatch(edges, next, p, edges)
  {
    assert Members(p.deleteEdges) == {};
    DropEdgesIsWithout(edges, {}, {});
    WithoutNone(edges, {});
  }

  lemma NodesUntouched(nodes: seq<Node>, next: nat, p: Patch)
    requires p.upsertNodes == [] && p.deleteNodes == []
    ensures NodesMatch(nodes, next, p, nodes)
  {
    assert Members(p.deleteNodes) == {};
    DropIsWithout(nodes, {}, {});
    WithoutNone(nodes, {});
  }

  lemma UpsertOne(nodes: seq<Node>, u: NodePatch)
    ensures UpsertNodes(nodes, [u]) == UpsertNode(nodes, u)
  {
    assert [u][..0] == [];
    assert UpsertNodes(nodes, []) == nodes;
  }

  lemma NodesUpserted(nodes: seq<Node>, p: Patch, u: NodePatch)
    requires p.upsertNodes == [u] && p.deleteNodes == []
    ensures ReplayNodes(nodes, p) == UpsertNode(nodes, u)
  {
    UpsertOne(nodes, u);
    assert Members(p.deleteNodes) == {};
    DropIsWithout(UpsertNode(nodes, u), {}, {});
    WithoutNone(UpsertNode(nodes, u), {});
  }

  lemma NodeAppended(nodes: seq<Node>, next: nat, n: Node, p: Patch)
    requires (forall m :: m in nodes ==> Under(m.id, next)) && n.id == Id(next)
    requires n.description != Some("") && n.investigation != Some("")
    requires p.upsertNodes == [NewNodePatch(n)] && p.deleteNodes == []
    ensures NodesMatch(nodes, next, p, nodes + [n])
  {
    NodesUpserted(nodes, p, NewNodePatch(n));
    assert !HasNode(nodes, n.id);
    assert NewNode(NewNodePatch(n)) == n;
    forall id | HasNode(nodes + [n], id) ensures HasNode(nodes, id) || Fresh(id, next) {
      RowSnoc(nodes, n, id);
    }
  }

  lemma {:induction false} PatchedNowhere(nodes: seq<Node>, u: NodePatch)
    requires forall i :: 0 <= i < |nodes| ==> nodes[i].id != u.id
    ensures Patched(nodes, u) == nodes
    decreases |nodes|
  {
    if nodes != [] {
      var init, last := nodes[..|nodes| - 1], nodes[|nodes| - 1];
      PatchedNowhere(init, u);
      PatchedSnoc(init, last, u);
      assert nodes == init + [last];
    }
  }

  lemma {:induction false} PatchedIsUpdate(nodes: seq<Node>, u: NodePatch, at: nat)
    requires DistinctNodes(nodes) && at < |nodes| && nodes[at].id == u.id
    ensures Patched(nodes, u) == nodes[at := Overlay(nodes[at], u)]
    decreases |nodes|
  {
    var init, last := nodes[..|nodes| - 1], nodes[|nodes| - 1];
    if at == |nodes| - 1 {
      PatchedNowhere(init, u);
    } else {
      PatchedIsUpdate(init, u, at);
    }
  }

  lemma NodeUpdated(nodes: seq<Node>, next: nat, u: NodePatch, at: nat, p: Patch)
    requires DistinctNodes(nodes) && at < |nodes| && nodes[at].id == u.id
    requires p.upsertNodes == [u] && p.deleteNodes == []
    ensures NodesMatch(nodes, next, p, nodes[at := Overlay(nodes[at], u)])
  {
    var after := nodes[at := Overlay(nodes[at], u)];
    NodesUpserted(nodes, p, u);
    PatchedIsUpdate(nodes, u, at);
    assert nodes[at] in nodes;
    forall id | HasNode(after, id) ensures HasNode(nodes, id) {
      var m :| m in after && m.id == id;
      var i :| 0 <= i < |after| && after[i] == m;
      assert nodes[i] in nodes;
    }
  }

  lemma NodesDeleted(nodes: seq<Node>, next: nat, doomed: set<Id>, p: Patch)
    requires forall m :: m in nodes ==> Under(m.id, next)
    requires p.upsertNodes == [] && p.deleteNodes == IdsOf(Only(nodes, NodesIn(nodes, doomed)))
    ensures NodesMatch(nodes, next, p, Without(nodes, NodesIn(nodes, doomed)))
  {
    var gone := NodesIn(nodes, doomed);
    OnlyMembers(nodes, gone);
    WithoutMembers(nodes, gone);
    IdsOfMembers(Only(nodes, gone));
    forall n | n in nodes ensures n in gone <==> n.id in Members(p.deleteNodes) {
      assert n in gone ==> HasNode(Only(nodes, gone), n.id);
    }
    DropIsWithout(nodes, gone, Members(p.deleteNodes));
  }

  /** The patch of an outcome replays to its graph and fits the supply. */
  ghost predicate Replays(g: Graph, next: nat, after: Outcome)
    requires after.reply.Ok?
  {
    var p := after.reply.result.patch;
    NodesMatch(g.nodes, next, p, after.graph.nodes) && EdgesMatch(g.edges, next, p, after.graph.edges)
  }

  /** The patch of one successful operation replays to the edited graph. */
  lemma OperationReplays(g: Graph, next: nat, op: Op, mode: Mode)
    requires Keyed(g) && Issued(g, next) && !op.Batch? && SingleOutcome(g, next, op, mode).reply.Ok?
    ensures Replays(g, next, SingleOutcome(g, next, op, mode))
  {
    match op
    case UpdateNode(_, _, _, _) => UpdateNodeReplays(g, next, op);
    case UpdateGate(_, _) => UpdateGateReplays(g, next, op);
    case AddNode(_, _, _, _) => AddNodeReplays(g, next, op, mode);
    case AddGate(_, _, _) =>
      AddGateReplays(g, next, op);
      assert SingleOutcome(g, next, op, mode) == GateInserted(g, next, op);
    case DeleteNode(_, _) =>
      DeleteReplays(g, next, op);
      assert SingleOutcome(g, next, op, mode) == Deleted(g, next, op);
    case MoveNode(_, _) =>
      MoveReplays(g, next, op);
      assert SingleOutcome(g, next, op, mode) == Moved(g, next, op);
    case _ => NoChangeReplays(g, next);
  }

  lemma DeleteReplays(g: Graph, next: nat, op: Op)
    requires Keyed(g) && Issued(g, next) && op.DeleteNode?
    ensures Replays(g, next, Deleted(g, next, op))
  {
    var p := Deleted(g, next, op).reply.result.patch;
    NodesDeleted(g.nodes, next, Doomed(g, op), p);
    RewiredMatches(g.edges, EdgesTouching(g.edges, Doomed(g, op)), next, next, SpliceArcs(g, op), p);
  }

  lemma MoveReplays(g: Graph, next: nat, op: Op)
    requires Keyed(g) && Issued(g, next) && op.MoveNode?
    ensures Replays(g, next, Moved(g, next, op))
  {
    var p := Moved(g, next, op).reply.result.patch;
    NodesUntouched(g.nodes, next, p);
    RewiredMatches(g.edges, EdgesInto(g.edges, op.nodeId), next, next, [Arc(op.newParent, op.nodeId)], p);
  }

  lemma NoChangeReplays(g: Graph, next: nat)
    ensures Replays(g, next, Outcome(g, next, Ok(NO_CHANGE)))
  {
    NodesUntouched(g.nodes, next, EMPTY_PATCH);
    EdgesUntouched(g.edges, next, EMPTY_PATCH);
  }

  lemma UpdateNodeReplays(g: Graph, next: nat, op: Op)
    requires Keyed(g) && op.UpdateNode? && UpdateNodeOutcome(g, next, op).reply.Ok?
    ensures Replays(g, next, UpdateNodeOutcome(g, next, op))
  {
    var at := Position(g.nodes, op.nodeId).value;
    var u := NodePatch(op.nodeId, None, None, op.name, op.description, op.investigation);
    if UpdateNodeOutcome(g, next, op).reply.result == NO_CHANGE {
      NoChangeReplays(g, next);
    } else {
      NodeUpdated(g.nodes, next, u, at, Patch([u], [], [], []));
      EdgesUntouched(g.edges, next, Patch([u], [], [], []));
    }
  }

  lemma UpdateGateReplays(g: Graph, next: nat, op: Op)
    requires Keyed(g) && op.UpdateGate? && UpdateGateOutcome(g, next, op).reply.Ok?
    ensures Replays(g, next, UpdateGateOutcome(g, next, op))
  {
    var at := Position(g.nodes, op.nodeId).value;
    var n := g.nodes[at];
    var u := NodePatch(n.id, Some(n.kind), op.gate, Some(n.name), None, None);
    if UpdateGateOutcome(g, next, op).reply.result == NO_CHANGE {
      NoChangeReplays(g, next);
    } else {
      NodeUpdated(g.nodes, next, u, at, Patch([u], [], [], []));
      EdgesUntouched(g.edges, next, Patch([u], [], [], []));
    }
  }

  lemma AddNodeReplays(g: Graph, next: nat, op: Op, mode: Mode)
    requires Keyed(g) && Issued(g, next) && op.AddNode? && AddNodeOutcome(g, next, op, mode).reply.Ok?
    ensures Replays(g, next, AddNodeOutcome(g, next, op, mode))
  {
    var n := Node(Id(next), op.kind, None, op.newName, TextField(op.newDescription), None);
    var p := AddNodeOutcome(g, next, op, mode).reply.result.patch;
    NodeAppended(g.nodes, next, n, p);
    if op.parent == NoId {
      EdgesUntouched(g.edges, next, p);
    } else {
      var arc := Arc(op.parent, n.id);
      FreshIsNoEnd(g, next);
      ConnectOne(g.edges, next + 1, arc);
      WithoutNone(g.edges, {});
      NoneChosen(g.edges);
      RewiredMatches(g.edges, {}, next, next + 1, [arc], p);
    }
  }

  lemma {:induction false} NoneChosen(edges: seq<Edge>)
    ensures EdgeIdsOf(Only(edges, {})) == []
    decreases |edges|
  {
    if edges != [] {
      NoneChosen(edges[..|edges| - 1]);
    }
  }

  lemma AddGateReplays(g: Graph, next: nat, op: Op)
    requires Keyed(g) && Issued(g, next) && op.AddGate?
    ensures Replays(g, next, GateInserted(g, next, op))
  {
    var children := Distinct(op.childIds);
    var n := Node(Id(next), Gate, op.gate, GateName(op.gate), None, None);
    var p := GateInserted(g, next, op).reply.result.patch;
    NodeAppended(g.nodes, next, n, p);
    RewiredMatches(g.edges, EdgesFromTo(g.edges, op.parent, set c | c in children), next, next + 1,
                   [Arc(op.parent, n.id)] + Fan(n.id, children), p);
  }

  // ---------- keys along a run ----------

  lemma AddGateKeepsKeys(g: Graph, next: nat, op: Op, mode: Mode)
    requires Keyed(g) && Issued(g, next) && op.AddGate? && AddGateOutcome(g, next, op, mode).reply.Ok?
    ensures var after := AddGateOutcome(g, next, op, mode); Keyed(after.graph) && Issued(after.graph, after.next)
  {
    GateChecked(g, next, op, mode);
    NodeWithExact(g.nodes, op.parent);
    var children := Distinct(op.childIds);
    var n := Node(Id(next), Gate, op.gate, GateName(op.gate), None, None);
    GateRows(g.edges, next + 1, op.parent, n.id, children);
    forall e | e in GateEdges(g.edges, next + 1, op.parent, n.id, children)
      ensures Under(e.from, next + 1) && Under(e.to, next + 1)
    {
      if e.from == n.id && e.to in children {
        assert e.to in ChildSet(op);
        NodeWithExact(g.nodes, e.to);
      }
    }
    GateKeepsKeys(g, next, n, op.parent, children);
  }

  lemma DeleteKeepsKeys(g: Graph, next: nat, op: Op)
    requires Keyed(g) && Issued(g, next) && op.DeleteNode? && op.nodeId != NoId
    ensures var after := Deleted(g, next, op); Keyed(after.graph) && Issued(after.graph, after.next)
  {
    DeletedRows(g, next, op);
    var left, arcs := RemoveNodes(g, Doomed(g, op)), SpliceArcs(g, op);
    RewiredKeys(g.edges, EdgesTouching(g.edges, Doomed(g, op)), next, arcs);
    forall e | e in Deleted(g, next, op).graph.edges ensures Under(e.from, next) && Under(e.to, next) {
      if e !in g.edges {
        SplicePairs(g, op, Arc(e.from, e.to));
        var f :| f in g.edges && !Blank(f) && Arc(f.from, f.to) == Arc(e.from, op.nodeId);
        var h :| h in g.edges && !Blank(h) && Arc(h.from, h.to) == Arc(op.nodeId, e.to);
      }
    }
  }

  lemma MoveKeepsKeys(g: Graph, next: nat, op: Op, mode: Mode)
    requires Keyed(g) && Issued(g, next) && op.MoveNode? && MoveNodeOutcome(g, next, op, mode).reply.Ok?
    ensures var after := MoveNodeOutcome(g, next, op, mode); Keyed(after.graph) && Issued(after.graph, after.next)
  {
    MoveChecked(g, next, op, mode);
    NodeWithExact(g.nodes, op.nodeId);
    NodeWithExact(g.nodes, op.newParent);
    RewiredKeys(g.edges, EdgesInto(g.edges, op.nodeId), next, [Arc(op.newParent, op.nodeId)]);
  }

  lemma AddNodeKeepsKeys(g: Graph, next: nat, op: Op, mode: Mode)
    requires Keyed(g) && Issued(g, next) && op.AddNode? && AddNodeOutcome(g, next, op, mode).reply.Ok?
    ensures var after := AddNodeOutcome(g, next, op, mode); Keyed(after.graph) && Issued(after.graph, after.next)
  {
    var n := Node(Id(next), op.kind, None, op.newName, TextField(op.newDescription), None);
    AppendedKeys(g, n, next);
    if op.parent != NoId {
      NodeWithExact(g.nodes, op.parent);
      LeafRows(g, next, Arc(op.parent, n.id));
    }
  }

  lemma UpdateKeepsKeys(g: Graph, next: nat, at: nat, n: Node)
    requires Keyed(g) && Issued(g, next) && at < |g.nodes| && n.id == g.nodes[at].id
    ensures Keyed(g.(nodes := g.nodes[at := n])) && Issued(g.(nodes := g.nodes[at := n]), next)
  {
    var nodes := g.nodes[at := n];
    forall m | m in nodes ensures m.id != NoId && Under(m.id, next) {
      var i :| 0 <= i < |nodes| && nodes[i] == m;
      assert g.nodes[i] in g.nodes;
    }
  }

  lemma OperationKeepsKeys(g: Graph, next: nat, op: Op, mode: Mode)
    requires Keyed(g) && Issued(g, next) && !op.Batch? && SingleOutcome(g, next, op, mode).reply.Ok?
    ensures var after := SingleOutcome(g, next, op, mode);
            Keyed(after.graph) && Issued(after.graph, after.next) && next <= after.next
  {
    match op
    case UpdateNode(_, _, _, _) =>
      var at, after := Position(g.nodes, op.nodeId), UpdateNodeOutcome(g, next, op).graph;
      if after != g {
        UpdateKeepsKeys(g, next, at.value, after.nodes[at.value]);
      }
    case UpdateGate(_, _) =>
      var at, after := Position(g.nodes, op.nodeId), UpdateGateOutcome(g, next, op).graph;
      if after != g {
        UpdateKeepsKeys(g, next, at.value, after.nodes[at.value]);
      }
    case AddNode(_, _, _, _) => AddNodeKeepsKeys(g, next, op, mode);
    case AddGate(_, _, _) => AddGateKeepsKeys(g, next, op, mode);
    case DeleteNode(_, _) =>
      NodeWithExact(g.nodes, op.nodeId);
      DeleteKeepsKeys(g, next, op);
    case MoveNode(_, _) => MoveKeepsKeys(g, next, op, mode);
    case _ =>
  }

  // ---------- a whole run ----------

  /** What the merged patch of a run deletes is gone and can not come back. */
  ghost predicate DeletedForGood(p: Patch, after: Graph, next: nat)
  {
    && (forall id :: id in p.deleteNodes ==> Under(id, next) && !HasNode(after.nodes, id))
    && (forall id :: id in p.deleteEdges ==> Under(id, next) && !HasEdgeRow(after.edges, id))
  }

  lemma NextPatchFits(p: Patch, g: Graph, next: nat, after: Outcome)
    requires DeletedForGood(p, g, next) && next <= after.next && after.reply.Ok? && Replays(g, next, after)
    requires Issued(after.graph, after.next)
    ensures NoReturn(p, after.reply.result.patch)
    ensures DeletedForGood(MergePatch(p, after.reply.result.patch), after.graph, after.next)
  {
    var q := after.reply.result.patch;
    forall e | e in q.upsertEdges ensures e.id !in p.deleteEdges {
      assert Fresh(e.id, next);
    }
    forall id | id in p.deleteNodes ensures !HasNode(after.graph.nodes, id) {
      assert Under(id, next);
    }
  }

  /** The outcome of a run so far: its patch rebuilds its graph, and its keys are in order. */
  ghost predicate RebuiltFrom(g: Graph, after: Outcome)
  {
    && after.reply.Ok? && Replay(g, after.reply.result.patch) == after.graph
    && DeletedForGood(after.reply.result.patch, after.graph, after.next)
    && Keyed(after.graph) && Issued(after.graph, after.next)
  }

  lemma OneMoreReplays(g: Graph, before: Outcome, op: Op, mode: Mode)
    requires RebuiltFrom(g, before) && !op.Batch? && SingleOutcome(before.graph, before.next, op, mode).reply.Ok?
    ensures var last := SingleOutcome(before.graph, before.next, op, mode);
            RebuiltFrom(g, last.(reply := Ok(Merge(before.reply.result, last.reply.result))))
  {
    var last := SingleOutcome(before.graph, before.next, op, mode);
    OperationReplays(before.graph, before.next, op, mode);
    OperationKeepsKeys(before.graph, before.next, op, mode);
    MergedRebuilds(g, before, last);
  }

  lemma MergedRebuilds(g: Graph, before: Outcome, last: Outcome)
    requires RebuiltFrom(g, before) && last.reply.Ok? && before.next <= last.next
    requires Replays(before.graph, before.next, last) && Keyed(last.graph) && Issued(last.graph, last.next)
    ensures RebuiltFrom(g, last.(reply := Ok(Merge(before.reply.result, last.reply.result))))
  {
    NextPatchFits(before.reply.result.patch, before.graph, before.next, last);
    ReplayMerged(g, before.reply.result.patch, last.reply.result.patch);
  }

  /** Patch replay: for any run of operations the merged patch, all upserts in order and then all
      deletes, rebuilds exactly the nodes and edges the run ends with, in order. */
  lemma {:induction false} RunReplays(g: Graph, next: nat, ops: seq<Op>, mode: Mode)
    requires Keyed(g) && Issued(g, next) && RunOps(g, next, ops, mode).reply.Ok?
    ensures RebuiltFrom(g, RunOps(g, next, ops, mode))
    decreases |ops|
  {
    if ops == [] {
      NoChangeReplays(g, next);
    } else {
      RunReplays(g, next, ops[..|ops| - 1], mode);
      OneMoreReplays(g, RunOps(g, next, ops[..|ops| - 1], mode), ops[|ops| - 1], mode);
    }
  }
}
